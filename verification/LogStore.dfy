/** The log history on disk: one active and one rotated file for each service, and
    what a reader may conclude from them about everything ever appended. */
module LogStore {
  import opened Wrappers

  datatype LogStream = Stdout | Stderr

  datatype LogRecord = LogRecord(ts: nat, stream: LogStream, text: string)

  /** A record and the number of bytes its line takes, line feed included. */
  datatype Line = Line(record: LogRecord, size: nat)

  /** The two files of a service, and the byte count of its writer if it is open. */
  datatype Log = Log(rotated: seq<Line>, active: seq<Line>, bytes: Option<nat>)

  const NO_LOG := Log([], [], None)

  const MIN_ROTATE_BYTES := 1024

  function Size(lines: seq<Line>): nat {
    if lines == [] then 0 else Size(lines[..|lines| - 1]) + lines[|lines| - 1].size
  }

  function OnDisk(log: Log): seq<Line> {
    log.rotated + log.active
  }

  // ----- writing

  function Opened(log: Log): Log {
    if log.bytes.Some? then log else log.(bytes := Some(Size(log.active)))
  }

  /** The active file takes the place of the rotated one, and a fresh one is begun. */
  function Rotated(log: Log): Log {
    Log(log.active, [], Some(0))
  }

  function Appended(log: Log, line: Line, limit: nat): Log {
    var open := Opened(log);
    var longer := Log(open.rotated, open.active + [line], Some(open.bytes.value + line.size));
    if longer.bytes.value >= limit then Rotated(longer) else longer
  }

  /** An append under the rotation limit in force, or a new store over the same directory. */
  datatype Event = Append(line: Line, limit: nat) | Restart

  function Next(log: Log, event: Event): Log {
    match event
    case Append(line, limit) => Appended(log, line, limit)
    case Restart => log.(bytes := None)
  }

  function LogAfter(events: seq<Event>): Log {
    if events == [] then NO_LOG else Next(LogAfter(events[..|events| - 1]), events[|events| - 1])
  }

  function Written(event: Event): seq<Line> {
    if event.Append? then [event.line] else []
  }

  /** Everything ever appended. */
  function History(events: seq<Event>): seq<Line> {
    if events == [] then [] else History(events[..|events| - 1]) + Written(events[|events| - 1])
  }

  lemma Grows(events: seq<Event>, event: Event)
    ensures LogAfter(events + [event]) == Next(LogAfter(events), event)
    ensures History(events + [event]) == History(events) + Written(event)
  {
    assert (events + [event])[..|events|] == events;
  }

  // ----- what the files keep

  lemma SizeGrows(lines: seq<Line>, line: Line)
    ensures Size([]) == 0 && Size(lines + [line]) == Size(lines) + line.size
  {
    assert (lines + [line])[..|lines|] == lines;
  }

  ghost predicate IsSuffix<T>(end: seq<T>, all: seq<T>) {
    |end| <= |all| && end == all[|all| - |end|..]
  }

  lemma SuffixGrows<T>(end: seq<T>, all: seq<T>, x: T)
    requires IsSuffix(end, all)
    ensures IsSuffix(end + [x], all + [x])
  {
  }

  lemma SuffixEnds<T>(a: seq<T>, b: seq<T>, all: seq<T>)
    requires IsSuffix(a + b, all)
    ensures IsSuffix(b, all)
  {
    var rest := all[|all| - |a + b|..];
    assert rest == a + b && rest[|a|..] == b;
  }

  /** The disk holds the end of the history, and its last line whenever there is one. */
  ghost predicate Keeps(log: Log, history: seq<Line>) {
    && IsSuffix(OnDisk(log), history)
    && (history != [] ==> OnDisk(log) != [])
    && (if log.bytes.Some? then log.bytes.value == Size(log.active) && history != [] else true)
  }

  lemma AppendKeeps(log: Log, history: seq<Line>, line: Line, limit: nat)
    requires Keeps(log, history)
    ensures Keeps(Appended(log, line, limit), history + [line])
  {
    hide Size, IsSuffix;
    SizeGrows(log.active, line);
    var active := log.active + [line];
    SuffixGrows(OnDisk(log), history, line);
    assert OnDisk(log) + [line] == log.rotated + active && active + [] == active;
    SuffixEnds(log.rotated, active, history + [line]);
  }

  /** What is on disk is always a suffix of everything appended. */
  lemma {:induction false} DiskIsSuffix(events: seq<Event>)
    ensures Keeps(LogAfter(events), History(events))
    decreases |events|
  {
    hide Size, Appended, IsSuffix;
    if events == [] {
      NothingIsKept();
    } else {
      var before, last := events[..|events| - 1], events[|events| - 1];
      DiskIsSuffix(before);
      match last
      case Append(line, limit) => AppendKeeps(LogAfter(before), History(before), line, limit);
      case Restart => assert History(before) + [] == History(before);
    }
  }

  lemma NothingIsKept()
    ensures Keeps(NO_LOG, [])
  {
  }

  /** What has been rotated away for good. */
  function Lost(events: seq<Event>): seq<Line> {
    var history, kept := History(events), |OnDisk(LogAfter(events))|;
    if kept <= |history| then history[..|history| - kept] else []
  }

  lemma LostAndKept(events: seq<Event>)
    ensures History(events) == Lost(events) + OnDisk(LogAfter(events))
    ensures History(events) != [] ==> OnDisk(LogAfter(events)) != []
  {
    DiskIsSuffix(events);
  }

  /** Every append uses the same limit, and no line is longer than `longest`. */
  ghost predicate FixedPolicy(events: seq<Event>, limit: nat, longest: nat) {
    forall e :: e in events && e.Append? ==> e.limit == limit && e.line.size <= longest
  }

  ghost predicate Small(log: Log, limit: nat, longest: nat) {
    Size(log.active) < limit && Size(log.rotated) < limit + longest
  }

  lemma AppendStaysSmall(log: Log, history: seq<Line>, line: Line, limit: nat, longest: nat)
    requires Keeps(log, history) && Small(log, limit, longest) && 0 < limit && line.size <= longest
    ensures Small(Appended(log, line, limit), limit, longest)
  {
    hide Size, IsSuffix;
    SizeGrows(log.active, line);
  }

  lemma {:induction false} StaysSmall(events: seq<Event>, limit: nat, longest: nat)
    requires FixedPolicy(events, limit, longest) && 0 < limit
    ensures Small(LogAfter(events), limit, longest)
    decreases |events|
  {
    hide Size, Appended, Keeps, History;
    if events == [] {
      NothingIsSmall(limit, longest);
    } else {
      var before, last := events[..|events| - 1], events[|events| - 1];
      assert last in events && forall e :: e in before ==> e in events;
      StaysSmall(before, limit, longest);
      DiskIsSuffix(before);
      if last.Append? {
        AppendStaysSmall(LogAfter(before), History(before), last.line, limit, longest);
      }
    }
  }

  lemma NothingIsSmall(limit: nat, longest: nat)
    requires 0 < limit
    ensures Small(NO_LOG, limit, longest)
  {
  }

  /** The two files stay small: the active one below the limit, the rotated one below the limit
      plus one line, so together below twice the limit plus one line. */
  lemma FilesStaySmall(events: seq<Event>, limit: nat, longest: nat)
    requires FixedPolicy(events, limit, longest) && 0 < limit
    ensures var log := LogAfter(events);
            && Size(log.active) < limit && Size(log.rotated) < limit + longest
            && Size(log.active) + Size(log.rotated) < 2 * limit + longest
  {
    hide LogAfter, Size, FixedPolicy;
    StaysSmall(events, limit, longest);
  }

  /** Without a limit every append rotates, and the last line is all there is. */
  lemma {:induction false} NoLimitKeepsOneLine(events: seq<Event>, longest: nat)
    requires FixedPolicy(events, 0, longest)
    ensures var log, history := LogAfter(events), History(events);
            && log.active == [] && log.rotated == (if history == [] then [] else [history[|history| - 1]])
            && Size(log.rotated) <= longest
    decreases |events|
  {
    hide Size;
    if events == [] {
      SizeGrows([], Line(LogRecord(0, Stdout, ""), 0));
    } else {
      var before, last := events[..|events| - 1], events[|events| - 1];
      assert last in events && forall e :: e in before ==> e in events;
      NoLimitKeepsOneLine(before, longest);
      if last.Append? {
        assert [] + [last.line] == [last.line];
        SizeGrows([], last.line);
      } else {
        assert History(before) + [] == History(before);
      }
    }
  }

  // ----- reading

  function Records(lines: seq<Line>): seq<LogRecord> {
    if lines == [] then [] else [lines[0].record] + Records(lines[1..])
  }

  function Since(records: seq<LogRecord>, since: nat): seq<LogRecord> {
    if records == [] then []
    else if records[0].ts >= since then [records[0]] + Since(records[1..], since)
    else Since(records[1..], since)
  }

  function Selected(records: seq<LogRecord>, since: Option<nat>): seq<LogRecord> {
    match since case Some(s) => Since(records, s) case None => records
  }

  /** What a read returns: the records, and whether it warns that some may be missing. */
  function ReadOf(log: Log, since: Option<nat>, tail: Option<nat>): (seq<LogRecord>, bool) {
    var all := Records(OnDisk(log));
    var kept := Selected(all, since);
    var bySince := since.Some? && all != [] && since.value < all[0].ts;
    var byTail := tail.Some? && |kept| > tail.value;
    (if byTail then kept[|kept| - tail.value..] else kept, bySince || byTail)
  }

  lemma {:induction false} RecordsSplit(a: seq<Line>, b: seq<Line>)
    ensures Records(a + b) == Records(a) + Records(b)
  {
    if a == [] {
      assert a + b == b;
    } else {
      assert (a + b)[1..] == a[1..] + b;
      RecordsSplit(a[1..], b);
    }
  }

  lemma {:induction false} SinceSplit(a: seq<LogRecord>, b: seq<LogRecord>, since: nat)
    ensures Since(a + b, since) == Since(a, since) + Since(b, since)
  {
    if a == [] {
      assert a + b == b;
    } else {
      assert (a + b)[1..] == a[1..] + b;
      SinceSplit(a[1..], b, since);
    }
  }

  lemma {:induction false} SinceIsEmpty(records: seq<LogRecord>, since: nat)
    ensures Since(records, since) == [] <==> forall r :: r in records ==> r.ts < since
  {
    if records != [] {
      SinceIsEmpty(records[1..], since);
      assert records == [records[0]] + records[1..];
    }
  }

  ghost predicate StrictlyIncreasing(records: seq<LogRecord>) {
    forall i, j :: 0 <= i < j < |records| ==> records[i].ts < records[j].ts
  }

  ghost predicate NeverDecreasing(records: seq<LogRecord>) {
    forall i, j :: 0 <= i < j < |records| ==> records[i].ts <= records[j].ts
  }

  lemma SelectedSplit(a: seq<LogRecord>, b: seq<LogRecord>, since: Option<nat>)
    ensures Selected(a + b, since) == Selected(a, since) + Selected(b, since)
  {
    if since.Some? {
      SinceSplit(a, b, since.value);
    }
  }

  lemma {:induction false} RecordsOfSome(lines: seq<Line>)
    ensures |Records(lines)| == |lines| && (lines != [] ==> Records(lines)[0] == lines[0].record)
  {
    if lines != [] {
      RecordsOfSome(lines[1..]);
    }
  }

  lemma RecordsEnd(lines: seq<Line>)
    requires lines != []
    ensures |Records(lines)| == |lines| && Records(lines)[|lines| - 1] == lines[|lines| - 1].record
  {
    var front := lines[..|lines| - 1];
    assert lines == front + [lines[|lines| - 1]];
    RecordsSplit(front, [lines[|lines| - 1]]);
    RecordsOfSome(front);
  }

  // ----- what a read tells about the history

  /** Nothing rotated away was asked for. */
  ghost predicate LostUnwanted(events: seq<Event>, since: Option<nat>) {
    forall r :: r in Records(Lost(events)) ==> since.Some? && r.ts < since.value
  }

  lemma UnwantedIsUnselected(events: seq<Event>, since: Option<nat>)
    ensures Selected(Records(Lost(events)), since) == [] <==> LostUnwanted(events, since)
  {
    var lost := Records(Lost(events));
    if since.Some? {
      SinceIsEmpty(lost, since.value);
    } else {
      assert lost != [] ==> lost[0] in lost;
    }
  }

  /** The history from `since` on is the selected part of what was lost, and then of what is kept. */
  lemma HistorySelected(events: seq<Event>, since: Option<nat>)
    ensures Selected(Records(History(events)), since) ==
            Selected(Records(Lost(events)), since) + Selected(Records(OnDisk(LogAfter(events))), since)
  {
    hide LogAfter, History, Lost, OnDisk, Records, Selected;
    LostAndKept(events);
    RecordsSplit(Lost(events), OnDisk(LogAfter(events)));
    SelectedSplit(Records(Lost(events)), Records(OnDisk(LogAfter(events))), since);
  }

  /** More is on disk than the tail that was asked for. */
  predicate Clips(log: Log, since: Option<nat>, tail: Option<nat>) {
    tail.Some? && |Selected(Records(OnDisk(log)), since)| > tail.value
  }

  /** The read returned all that was ever appended from `since` on. */
  predicate Whole(events: seq<Event>, since: Option<nat>, tail: Option<nat>) {
    ReadOf(LogAfter(events), since, tail).0 == Selected(Records(History(events)), since)
  }

  /** What was asked for: the records from `since` on, and of these the last `tail`. */
  function Wanted(records: seq<LogRecord>, since: Option<nat>, tail: Option<nat>): seq<LogRecord> {
    var all := Selected(records, since);
    if tail.Some? && |all| > tail.value then all[|all| - tail.value..] else all
  }

  /** The read returned what was asked for. */
  predicate Answers(events: seq<Event>, since: Option<nat>, tail: Option<nat>) {
    ReadOf(LogAfter(events), since, tail).0 == Wanted(Records(History(events)), since, tail)
  }

  lemma LastOfBoth<T>(a: seq<T>, b: seq<T>, n: nat)
    ensures |b| >= n ==> b[|b| - n..] == (a + b)[|a + b| - n..]
    ensures a + b == b <==> a == []
  {
    assert |a + b| == |a| + |b|;
    assert a == [] ==> a + b == b;
  }

  /** Flagged or not, and whatever the timestamps: a read is whole exactly if its tail was long enough
      and nothing it asked for was rotated away, and returns what was asked for exactly if its tail is
      all on disk or nothing it asked for was rotated away. */
  lemma ReadIsWholeIff(events: seq<Event>, since: Option<nat>, tail: Option<nat>)
    ensures Whole(events, since, tail) <==> !Clips(LogAfter(events), since, tail) && LostUnwanted(events, since)
    ensures Answers(events, since, tail) <==>
            || (tail.Some? && |Selected(Records(OnDisk(LogAfter(events))), since)| >= tail.value)
            || LostUnwanted(events, since)
  {
    hide LogAfter, History, Lost, OnDisk, Records, Selected, LostUnwanted;
    var lost := Selected(Records(Lost(events)), since);
    var kept := Selected(Records(OnDisk(LogAfter(events))), since);
    HistorySelected(events, since);
    UnwantedIsUnselected(events, since);
    LastOfBoth(lost, kept, if tail.Some? then tail.value else 0);
  }

  /** While nothing is in the rotated file nothing was lost. */
  lemma {:induction false} UnrotatedIsWhole(events: seq<Event>)
    requires LogAfter(events).rotated == []
    ensures History(events) == LogAfter(events).active && Lost(events) == []
    decreases |events|
  {
    if events != [] {
      var before, last := events[..|events| - 1], events[|events| - 1];
      UnrotatedIsWhole(before);
    }
  }

  // ----- the histories a store can have

  /** The limit of the open writer: it is fixed when the writer is opened. */
  function PolicyOf(events: seq<Event>): Option<nat> {
    if events == [] then None
    else match events[|events| - 1]
      case Append(_, limit) => Some(limit)
      case Restart => None
  }

  /** `Some(limit)`: every writer has this limit; `None`: each its own, from the minimum up. */
  predicate Within(policy: Option<nat>, limit: nat) {
    match policy case Some(l) => limit == l && 0 < l case None => limit >= MIN_ROTATE_BYTES
  }

  /** No writer changes its limit, and each has one within the policy. */
  predicate Policed(events: seq<Event>, policy: Option<nat>) {
    events == [] ||
    (var before, last := events[..|events| - 1], events[|events| - 1];
     && Policed(before, policy)
     && (last.Append? ==> Within(policy, last.limit) && PolicyOf(before) in {None, Some(last.limit)}))
  }

  function Digits(n: nat): nat {
    if n < 10 then 1 else 1 + Digits(n / 10)
  }

  /** The bytes of a serialised record around its text: the three keys, the time and the stream. */
  function Around(r: LogRecord): nat {
    36 + Digits(r.ts)
  }

  /** A line is as long as its record: no character of the text takes less than a byte. */
  predicate IsLine(line: Line) {
    line.size >= Around(line.record) + |line.record.text|
  }

  /** The line of `n` letters. */
  function At(ts: nat, n: nat): (line: Line)
    ensures IsLine(line) && line.size >= n
  {
    var r := LogRecord(ts, Stdout, seq(n, _ => 'x'));
    Line(r, Around(r) + n)
  }

  /** What can happen to the log of a service. */
  ghost predicate Possible(events: seq<Event>, policy: Option<nat>) {
    Policed(events, policy) && forall e :: e in events && e.Append? ==> IsLine(e.line)
  }

  lemma PolicedMore(events: seq<Event>, event: Event, policy: Option<nat>)
    ensures Policed(events + [event], policy) <==>
            && Policed(events, policy)
            && (event.Append? ==> Within(policy, event.limit) && PolicyOf(events) in {None, Some(event.limit)})
    ensures PolicyOf(events + [event]) == if event.Append? then Some(event.limit) else None
  {
    hide Within;
    var all := events + [event];
    assert all[..|all| - 1] == events && all[|all| - 1] == event;
  }

  lemma PossibleMore(events: seq<Event>, event: Event, policy: Option<nat>)
    ensures Possible(events + [event], policy) <==>
            && Possible(events, policy)
            && (event.Append? ==>
                  Within(policy, event.limit) && PolicyOf(events) in {None, Some(event.limit)} && IsLine(event.line))
    ensures PolicyOf(events + [event]) == if event.Append? then Some(event.limit) else None
  {
    hide IsLine, Within, Policed, PolicyOf;
    var all := events + [event];
    PolicedMore(events, event, policy);
    assert forall e :: e in all <==> e in events || e == event;
  }

  lemma PossibleNone(policy: Option<nat>)
    ensures Possible([], policy) && PolicyOf([]) == None
  {
  }

  /** What such a history leaves: a rotated file that reached a limit with its last line, and with one
      limit for all an active file below it. */
  ghost predicate Shaped(log: Log, policy: Option<nat>) {
    && (log.rotated != [] ==> log.rotated[|log.rotated| - 1].size > 0)
    && match policy
       case Some(limit) =>
         && Size(log.active) < limit
         && (log.rotated != [] ==> Size(log.rotated[..|log.rotated| - 1]) < limit <= Size(log.rotated))
       case None => log.rotated != [] ==> MIN_ROTATE_BYTES <= Size(log.rotated)
  }

  lemma FrontAndLast<T>(before: seq<T>, s: seq<T>)
    requires s != []
    ensures var front, last := s[..|s| - 1], s[|s| - 1];
            front + [last] == s && [] + front == front && (before + front) + [last] == before + s
  {
  }

  lemma AppendShapes(log: Log, history: seq<Line>, line: Line, limit: nat, policy: Option<nat>)
    requires Keeps(log, history) && Shaped(log, policy) && Within(policy, limit) && line.size > 0
    ensures Shaped(Appended(log, line, limit), policy)
  {
    hide Size, IsSuffix;
    var active := log.active + [line];
    SizeGrows(log.active, line);
    assert active[..|active| - 1] == log.active && active[|active| - 1] == line;
  }

  lemma {:induction false} RunIsShaped(events: seq<Event>, policy: Option<nat>)
    requires Possible(events, policy) && policy != Some(0)
    ensures Shaped(LogAfter(events), policy)
    decreases |events|
  {
    hide Size, Appended, Keeps, Within, Policed;
    if events == [] {
      NothingIsShaped(policy);
    } else {
      var before, last := events[..|events| - 1], events[|events| - 1];
      FrontAndLast([], events);
      PossibleMore(before, last, policy);
      RunIsShaped(before, policy);
      DiskIsSuffix(before);
      if last.Append? {
        AppendShapes(LogAfter(before), History(before), last.line, last.limit, policy);
      }
    }
  }

  lemma NothingIsShaped(policy: Option<nat>)
    requires policy != Some(0)
    ensures Shaped(NO_LOG, policy)
  {
  }

  lemma {:induction false} HistoryIsLines(events: seq<Event>)
    requires forall e :: e in events && e.Append? ==> IsLine(e.line)
    ensures forall line :: line in History(events) ==> IsLine(line)
    decreases |events|
  {
    hide IsLine;
    if events != [] {
      var before, last := events[..|events| - 1], events[|events| - 1];
      assert last in events && forall e :: e in before ==> e in events;
      HistoryIsLines(before);
    }
  }

  lemma DiskIsLines(events: seq<Event>, policy: Option<nat>)
    requires Possible(events, policy)
    ensures forall line :: line in LogAfter(events).rotated || line in LogAfter(events).active ==> IsLine(line)
  {
    hide IsLine, LogAfter, History, Lost, Policed;
    HistoryIsLines(events);
    LostAndKept(events);
  }

  // ----- histories that leave the same files

  /** The events can happen and leave these files. */
  ghost predicate Leaves(events: seq<Event>, log: Log, policy: Option<nat>) {
    LogAfter(events) == log && Possible(events, policy)
  }

  /** They do, and the clock never went back. */
  ghost predicate Explains(events: seq<Event>, log: Log, policy: Option<nat>) {
    Leaves(events, log, policy) && NeverDecreasing(Records(History(events)))
  }

  function Appends(lines: seq<Line>, limit: nat): seq<Event> {
    if lines == [] then [] else Appends(lines[..|lines| - 1], limit) + [Append(lines[|lines| - 1], limit)]
  }

  lemma {:induction false} SizeOfFront(lines: seq<Line>, more: seq<Line>)
    ensures Size(lines) <= Size(lines + more)
    decreases |more|
  {
    if more == [] {
      assert lines + more == lines;
    } else {
      var front, last := more[..|more| - 1], more[|more| - 1];
      SizeOfFront(lines, front);
      SizeGrows(lines + front, last);
      assert (lines + front) + [last] == lines + more;
    }
  }

  /** Below the limit lines only pile up in the active file. */
  lemma {:induction false} PileUp(events: seq<Event>, lines: seq<Line>, limit: nat)
    requires var log := LogAfter(events);
             Size(log.active + lines) < limit && (log.bytes.Some? ==> log.bytes.value == Size(log.active))
    ensures var log, all := LogAfter(events), LogAfter(events).active + lines;
            LogAfter(events + Appends(lines, limit)) ==
            Log(log.rotated, all, if lines == [] then log.bytes else Some(Size(all)))
    ensures History(events + Appends(lines, limit)) == History(events) + lines
    decreases |lines|
  {
    hide Size, LogAfter, History;
    var log := LogAfter(events);
    if lines == [] {
      assert events + Appends(lines, limit) == events && log.active + lines == log.active;
      assert History(events) + lines == History(events);
    } else {
      var front, last := lines[..|lines| - 1], lines[|lines| - 1];
      var piled := events + Appends(front, limit);
      assert log.active + lines == (log.active + front) + [last];
      SizeGrows(log.active + front, last);
      SizeOfFront(log.active + front, [last]);
      PileUp(events, front, limit);
      assert front == [] ==> log.active + front == log.active;
      Grows(piled, Append(last, limit));
      assert events + Appends(lines, limit) == piled + [Append(last, limit)];
      assert (History(events) + front) + [last] == History(events) + lines;
    }
  }

  lemma {:induction false} PossibleAppends(events: seq<Event>, lines: seq<Line>, limit: nat, policy: Option<nat>)
    requires Possible(events, policy) && PolicyOf(events) in {None, Some(limit)} && Within(policy, limit)
    requires forall line :: line in lines ==> IsLine(line)
    ensures Possible(events + Appends(lines, limit), policy)
    ensures PolicyOf(events + Appends(lines, limit)) == if lines == [] then PolicyOf(events) else Some(limit)
    decreases |lines|
  {
    hide Possible, PolicyOf, Within, IsLine;
    if lines == [] {
      assert events + Appends(lines, limit) == events;
    } else {
      var front, last := lines[..|lines| - 1], lines[|lines| - 1];
      assert last in lines && forall line :: line in front ==> line in lines;
      PossibleAppends(events, front, limit, policy);
      PossibleMore(events + Appends(front, limit), Append(last, limit), policy);
      assert events + Appends(lines, limit) == (events + Appends(front, limit)) + [Append(last, limit)];
    }
  }

  /** A writer whose limit the rotated file of `log` reaches with its last line. */
  function RotatingLimit(log: Log, policy: Option<nat>): nat {
    match policy case Some(limit) => limit case None => Size(log.rotated)
  }

  /** A writer whose limit the active file of `log` does not reach. */
  function PilingLimit(log: Log, policy: Option<nat>): nat {
    match policy
    case Some(limit) => limit
    case None => MIN_ROTATE_BYTES + Size(log.active)
  }

  /** Fill the rotated file: its last line makes the writer rotate. */
  function FillRotated(first: seq<Event>, log: Log, policy: Option<nat>): seq<Event> {
    if log.rotated == [] then first else first + Appends(log.rotated, RotatingLimit(log, policy))
  }

  /** Then, with a new writer, the active one. */
  function FillActive(rotated: seq<Event>, log: Log, policy: Option<nat>): seq<Event> {
    if log.active == [] then rotated else rotated + [Restart] + Appends(log.active, PilingLimit(log, policy))
  }

  /** After `first`, these events leave exactly the files of `log`. */
  function Refill(first: seq<Event>, log: Log, policy: Option<nat>): seq<Event> {
    FillActive(FillRotated(first, log, policy), log, policy) + if log.bytes.None? then [Restart] else []
  }

  /** Nothing is in the active file, and the writer knows it. */
  predicate Emptied(log: Log) {
    log.active == [] && (log.bytes.Some? ==> log.bytes.value == 0)
  }

  lemma RotatedIsFilled(first: seq<Event>, log: Log, policy: Option<nat>)
    requires Emptied(LogAfter(first)) && Shaped(log, policy) && log.rotated != []
    ensures LogAfter(FillRotated(first, log, policy)) == Log(log.rotated, [], Some(0))
    ensures History(FillRotated(first, log, policy)) == History(first) + log.rotated
  {
    hide Size, LogAfter, History;
    var lines, limit := log.rotated, RotatingLimit(log, policy);
    var front, last := lines[..|lines| - 1], lines[|lines| - 1];
    FrontAndLast(History(first), lines);
    SizeGrows([], last);
    SizeGrows(front, last);
    PileUp(first, front, limit);
    Grows(first + Appends(front, limit), Append(last, limit));
    assert first + Appends(lines, limit) == (first + Appends(front, limit)) + [Append(last, limit)];
  }

  lemma ActiveIsFilled(events: seq<Event>, log: Log, policy: Option<nat>)
    requires LogAfter(events).rotated == log.rotated && LogAfter(events).active == [] && Shaped(log, policy)
    requires log.active != []
    ensures LogAfter(FillActive(events, log, policy)) == Log(log.rotated, log.active, Some(Size(log.active)))
    ensures History(FillActive(events, log, policy)) == History(events) + log.active
  {
    hide Size, LogAfter, History, Appends;
    Grows(events, Restart);
    assert [] + log.active == log.active && History(events) + [] == History(events);
    PileUp(events + [Restart], log.active, PilingLimit(log, policy));
  }

  /** The files of any run: their byte count is right, and an open writer has written. */
  ghost predicate IsReal(log: Log) {
    log.bytes.Some? ==> log.bytes.value == Size(log.active) && OnDisk(log) != []
  }

  lemma RefillIs(first: seq<Event>, log: Log, policy: Option<nat>)
    requires IsReal(log) && Shaped(log, policy) && Emptied(LogAfter(first)) && (log.rotated == [] ==> first == [])
    ensures LogAfter(Refill(first, log, policy)) == log
    ensures History(Refill(first, log, policy)) == History(first) + OnDisk(log)
  {
    NothingYet();
    hide Size, LogAfter, History, Appends, Shaped, FillActive, FillRotated;
    SizeGrows([], At(0, 0));
    var filled := FillRotated(first, log, policy);
    RotatedFirst(first, log, policy);
    var all := FillActive(filled, log, policy);
    ActiveNext(filled, log, policy);
    assert (History(first) + log.rotated) + log.active == History(first) + OnDisk(log);
    if log.bytes.None? {
      Grows(all, Restart);
      assert History(all) + [] == History(all);
    } else {
      assert all + [] == all;
    }
  }

  lemma RotatedFirst(first: seq<Event>, log: Log, policy: Option<nat>)
    requires Shaped(log, policy) && Emptied(LogAfter(first)) && (log.rotated == [] ==> first == [])
    ensures var after := LogAfter(FillRotated(first, log, policy));
            after == if log.rotated == [] then NO_LOG else Log(log.rotated, [], Some(0))
    ensures History(FillRotated(first, log, policy)) == History(first) + log.rotated
  {
    NothingYet();
    hide Size, LogAfter, History, Appends, Shaped;
    if log.rotated == [] {
      assert History(first) + log.rotated == History(first);
    } else {
      RotatedIsFilled(first, log, policy);
    }
  }

  lemma ActiveNext(events: seq<Event>, log: Log, policy: Option<nat>)
    requires LogAfter(events) == (if log.rotated == [] then NO_LOG else Log(log.rotated, [], Some(0)))
    requires Shaped(log, policy)
    ensures LogAfter(FillActive(events, log, policy)) ==
            if log.active == [] then LogAfter(events) else Log(log.rotated, log.active, Some(Size(log.active)))
    ensures History(FillActive(events, log, policy)) == History(events) + log.active
  {
    hide Size, LogAfter, History, Appends, Shaped;
    if log.active == [] {
      assert History(events) + log.active == History(events);
    } else {
      ActiveIsFilled(events, log, policy);
    }
  }

  lemma LimitsAreWithin(log: Log, policy: Option<nat>)
    requires Shaped(log, policy) && policy != Some(0)
    ensures log.rotated != [] ==> Within(policy, RotatingLimit(log, policy))
    ensures Within(policy, PilingLimit(log, policy))
  {
  }

  lemma RefillIsPossible(first: seq<Event>, log: Log, policy: Option<nat>)
    requires Shaped(log, policy) && policy != Some(0) && Possible(first, policy)
    requires PolicyOf(first) in {None, Some(RotatingLimit(log, policy))}
    requires forall line :: line in log.rotated || line in log.active ==> IsLine(line)
    ensures Possible(Refill(first, log, policy), policy)
  {
    hide Possible, PolicyOf, IsLine, Shaped, Within, Appends, RotatingLimit, PilingLimit;
    LimitsAreWithin(log, policy);
    var filled := FillRotated(first, log, policy);
    if log.rotated != [] {
      PossibleAppends(first, log.rotated, RotatingLimit(log, policy), policy);
    }
    var all := FillActive(filled, log, policy);
    if log.active != [] {
      PossibleMore(filled, Restart, policy);
      PossibleAppends(filled + [Restart], log.active, PilingLimit(log, policy), policy);
    }
    if log.bytes.None? {
      PossibleMore(all, Restart, policy);
    } else {
      assert all + [] == all;
    }
  }

  lemma NothingYet()
    ensures LogAfter([]) == NO_LOG && History([]) == []
  {
  }

  lemma RunsAreReal(events: seq<Event>)
    ensures IsReal(LogAfter(events))
  {
    DiskIsSuffix(events);
  }

  lemma NeverDecreasingEnd(a: seq<LogRecord>, b: seq<LogRecord>)
    requires NeverDecreasing(a + b)
    ensures NeverDecreasing(b) && (a != [] && b != [] ==> a[|a| - 1].ts <= b[0].ts)
    ensures forall r :: r in a && b != [] ==> r.ts <= b[0].ts
  {
    var all := a + b;
    assert forall i | 0 <= i < |b| :: b[i] == all[|a| + i];
    assert forall i | 0 <= i < |a| :: a[i] == all[i];
  }

  lemma LostBefore(events: seq<Event>, lost: seq<Line>)
    requires History(events) == lost + OnDisk(LogAfter(events))
    ensures Lost(events) == lost
  {
    assert |lost + OnDisk(LogAfter(events))| == |lost| + |OnDisk(LogAfter(events))|;
  }

  lemma DiskNeverDecreases(events: seq<Event>)
    requires NeverDecreasing(Records(History(events)))
    ensures NeverDecreasing(Records(OnDisk(LogAfter(events))))
  {
    hide LogAfter, History, Lost, OnDisk, Records, NeverDecreasing;
    LostAndKept(events);
    RecordsSplit(Lost(events), OnDisk(LogAfter(events)));
    NeverDecreasingEnd(Records(Lost(events)), Records(OnDisk(LogAfter(events))));
  }

  lemma NeverDecreasingFrom(line: Line, lines: seq<Line>)
    requires NeverDecreasing(Records(lines)) && (lines != [] ==> line.record.ts <= lines[0].record.ts)
    ensures NeverDecreasing(Records([line] + lines))
  {
    RecordsSplit([line], lines);
    RecordsOfSome(lines);
    assert Records([line]) == [line.record];
  }

  /** Nothing is lost before a whole file of what came after it is kept. */
  lemma LossNeedsAFullFile(events: seq<Event>, policy: Option<nat>)
    requires Possible(events, policy) && policy != Some(0) && Lost(events) != []
    ensures Size(LogAfter(events).rotated) >= match policy case Some(limit) => limit case None => MIN_ROTATE_BYTES
  {
    hide LogAfter, History, Lost, Possible, IsLine, PolicyOf;
    RunIsShaped(events, policy);
    if LogAfter(events).rotated == [] {
      UnrotatedIsWhole(events);
    }
  }

  /** No flag proves a loss: the same files are left by a possible history of which nothing was lost. */
  lemma NothingNeedBeLost(events: seq<Event>, policy: Option<nat>) returns (other: seq<Event>)
    requires Possible(events, policy) && policy != Some(0)
    ensures Leaves(other, LogAfter(events), policy) && Lost(other) == []
    ensures NeverDecreasing(Records(History(events))) ==> Explains(other, LogAfter(events), policy)
  {
    hide LogAfter, History, Lost, OnDisk, Records, NeverDecreasing, Refill, Possible, Shaped, IsLine, PolicyOf;
    var log := LogAfter(events);
    other := Refill([], log, policy);
    NothingYet();
    RunsAreReal(events);
    RunIsShaped(events, policy);
    DiskIsLines(events, policy);
    PossibleNone(policy);
    RefillIs([], log, policy);
    RefillIsPossible([], log, policy);
    LostBefore(other, []);
    assert [] + OnDisk(log) == OnDisk(log);
    if NeverDecreasing(Records(History(events))) {
      DiskNeverDecreases(events);
    }
  }

  /** Once a file was rotated, the same files are also left by a possible history that lost a record of this
      time; its clock never went back if that time is not after the earliest record on disk. */
  lemma RecordMayBeLost(events: seq<Event>, policy: Option<nat>, ts: nat) returns (other: seq<Event>, lost: Line)
    requires Possible(events, policy) && policy != Some(0) && LogAfter(events).rotated != []
    ensures Leaves(other, LogAfter(events), policy) && Lost(other) == [lost] && lost.record.ts == ts
    ensures NeverDecreasing(Records(History(events))) && ts <= LogAfter(events).rotated[0].record.ts ==>
              Explains(other, LogAfter(events), policy)
  {
    hide LogAfter, History, Lost, Records, NeverDecreasing, Refill, Possible, Shaped, IsLine, PolicyOf, Within;
    var log := LogAfter(events);
    var limit := RotatingLimit(log, policy);
    lost := At(ts, limit);
    var first := [Append(lost, limit)];
    other := Refill(first, log, policy);
    RunsAreReal(events);
    RunIsShaped(events, policy);
    DiskIsLines(events, policy);
    LimitsAreWithin(log, policy);
    OneRotated(lost, limit, policy);
    RefillIs(first, log, policy);
    RefillIsPossible(first, log, policy);
    LostBefore(other, [lost]);
    if NeverDecreasing(Records(History(events))) && ts <= log.rotated[0].record.ts {
      DiskNeverDecreases(events);
      NeverDecreasingFrom(lost, OnDisk(log));
    }
  }

  lemma OneRotated(line: Line, limit: nat, policy: Option<nat>)
    requires line.size >= limit
    ensures var e := [Append(line, limit)];
            && LogAfter(e) == Log([line], [], Some(0)) && History(e) == [line] && PolicyOf(e) == Some(limit)
            && (Within(policy, limit) && IsLine(line) ==> Possible(e, policy))
  {
    hide LogAfter, History, Possible, PolicyOf, IsLine, Within;
    NothingYet();
    PossibleNone(policy);
    Grows([], Append(line, limit));
    PossibleMore([], Append(line, limit), policy);
    assert [] + [Append(line, limit)] == [Append(line, limit)] && [] + [line] == [line];
  }

  // ----- what the reader can be sure of

  /** No record from `since` on can have been rotated away: there is no rotated file, or it begins before. */
  predicate OutOfReach(log: Log, since: Option<nat>) {
    log.rotated == [] || (since.Some? && log.rotated[0].record.ts < since.value)
  }

  lemma OutOfReachIsUnwanted(events: seq<Event>, since: Option<nat>)
    requires NeverDecreasing(Records(History(events))) && OutOfReach(LogAfter(events), since)
    ensures LostUnwanted(events, since)
  {
    var log := LogAfter(events);
    if log.rotated == [] {
      UnrotatedIsWhole(events);
    } else {
      LostAndKept(events);
      RecordsSplit(Lost(events), OnDisk(log));
      RecordsOfSome(OnDisk(log));
      NeverDecreasingEnd(Records(Lost(events)), Records(OnDisk(log)));
    }
  }

  /** With a clock that never goes back, the files alone decide: a read is whole under every possible history
      that leaves them exactly if its tail was long enough and the rotated file is missing or begins before
      `since`, and it returns what was asked for exactly if its tail is all on disk or that is so. */
  lemma SureIff(events: seq<Event>, policy: Option<nat>, since: Option<nat>, tail: Option<nat>)
    requires Possible(events, policy) && policy != Some(0) && NeverDecreasing(Records(History(events)))
    ensures var log := LogAfter(events);
            (forall other :: Explains(other, log, policy) ==> Whole(other, since, tail)) <==>
              OutOfReach(log, since) && !Clips(log, since, tail)
    ensures var log := LogAfter(events);
            (forall other :: Explains(other, log, policy) ==> Answers(other, since, tail)) <==>
              OutOfReach(log, since) || (tail.Some? && |Selected(Records(OnDisk(log)), since)| >= tail.value)
  {
    hide Whole, Answers, NeverDecreasing, Records, Selected, LogAfter, History, Lost, OnDisk, Possible;
    var log := LogAfter(events);
    assert Explains(events, log, policy);
    ReadIsWholeIff(events, since, tail);
    forall other | Explains(other, log, policy)
      ensures OutOfReach(log, since) ==> LostUnwanted(other, since)
      ensures Whole(other, since, tail) <==> !Clips(log, since, tail) && LostUnwanted(other, since)
      ensures Answers(other, since, tail) <==>
              (tail.Some? && |Selected(Records(OnDisk(log)), since)| >= tail.value) || LostUnwanted(other, since)
    {
      ReadIsWholeIff(other, since, tail);
      if OutOfReach(log, since) {
        OutOfReachIsUnwanted(other, since);
      }
    }
    if !OutOfReach(log, since) {
      var lossy, lost := RecordMayBeLost(events, policy, log.rotated[0].record.ts);
      LostIsWanted(lossy, lost, since);
      assert Explains(lossy, log, policy) && !LostUnwanted(lossy, since);
    }
  }

  lemma LostIsWanted(events: seq<Event>, lost: Line, since: Option<nat>)
    requires Lost(events) == [lost] && (since.Some? ==> since.value <= lost.record.ts)
    ensures !LostUnwanted(events, since)
  {
    assert Records(Lost(events))[0] == lost.record;
  }

  /** Where the clock may go back, only a log without a rotated file is sure. */
  lemma SureAtAnyTimeIff(events: seq<Event>, policy: Option<nat>, since: Option<nat>, tail: Option<nat>)
    requires Possible(events, policy) && policy != Some(0)
    ensures var log := LogAfter(events);
            (forall other :: Leaves(other, log, policy) ==> Whole(other, since, tail)) <==>
              log.rotated == [] && !Clips(log, since, tail)
  {
    hide Whole, Records, Selected, LogAfter, History, OnDisk, Possible;
    var log := LogAfter(events);
    assert Leaves(events, log, policy);
    ReadIsWholeIff(events, since, tail);
    if log.rotated == [] {
      forall other | Leaves(other, log, policy) ensures Whole(other, since, tail) <==> !Clips(log, since, tail) {
        UnrotatedIsWhole(other);
        NothingIsUnwanted(other, since);
        ReadIsWholeIff(other, since, tail);
      }
    } else {
      var ts := if since.Some? then since.value else 0;
      var lossy, lost := RecordMayBeLost(events, policy, ts);
      LostIsWanted(lossy, lost, since);
      ReadIsWholeIff(lossy, since, tail);
    }
  }

  lemma NothingIsUnwanted(events: seq<Event>, since: Option<nat>)
    requires Lost(events) == []
    ensures LostUnwanted(events, since)
  {
  }

  /** The flag warns exactly where the reader cannot be sure, if and only if: the tail was too short; or there
      is no rotated file, and the read asks for no time before the first record; or there is one, and the read
      asks for a time other than that of its first record. A caller can check all of it against the files. */
  lemma FlagIsRightIff(events: seq<Event>, policy: Option<nat>, since: Option<nat>, tail: Option<nat>)
    requires Possible(events, policy) && policy != Some(0) && NeverDecreasing(Records(History(events)))
    ensures var log := LogAfter(events);
            (ReadOf(log, since, tail).1 <==>
             exists other :: Explains(other, log, policy) && !Whole(other, since, tail)) <==>
              || Clips(log, since, tail)
              || (if log.rotated == [] then
                    since.Some? && log.active != [] ==> log.active[0].record.ts <= since.value
                  else since.Some? && since.value != log.rotated[0].record.ts)
  {
    hide Whole, Explains, NeverDecreasing, LogAfter, History, Records, Selected, Possible;
    var log := LogAfter(events);
    SureIff(events, policy, since, tail);
    RecordsOfSome(OnDisk(log));
  }

  /** With strictly increasing timestamps, a read since a time that is not flagged
      returns every record ever appended at or after it. */
  lemma UnflaggedIsComplete(events: seq<Event>, since: nat, tail: Option<nat>)
    requires StrictlyIncreasing(Records(History(events)))
    requires !ReadOf(LogAfter(events), Some(since), tail).1
    ensures ReadOf(LogAfter(events), Some(since), tail).0 == Since(Records(History(events)), since)
  {
    hide LogAfter, History, Lost, Records, Since, OnDisk;
    var lost, kept := Records(Lost(events)), Records(OnDisk(LogAfter(events)));
    LostAndKept(events);
    RecordsSplit(Lost(events), OnDisk(LogAfter(events)));
    RecordsOfSome(OnDisk(LogAfter(events)));
    RecordsOfSome(Lost(events));
    forall r | r in lost ensures r.ts < since {
      var i :| 0 <= i < |lost| && lost[i] == r;
      assert (lost + kept)[i] == r && (lost + kept)[|lost|] == kept[0];
    }
    ReadIsWholeIff(events, Some(since), tail);
  }

  /** With timestamps that only never decrease it is complete exactly if the last record
      that was rotated away is older than `since`; the read cannot see that one, and the flag
      misses the case where it is as old as the earliest record kept. */
  lemma UnflaggedOnEqualTimes(events: seq<Event>, since: nat, tail: Option<nat>)
    requires NeverDecreasing(Records(History(events)))
    requires !ReadOf(LogAfter(events), Some(since), tail).1
    ensures var lost := Lost(events);
            && (lost != [] ==> lost[|lost| - 1].record.ts <= since)
            && (ReadOf(LogAfter(events), Some(since), tail).0 == Since(Records(History(events)), since) <==>
                (lost == [] || lost[|lost| - 1].record.ts != since))
  {
    hide LogAfter, History, Lost, Records, Since, NeverDecreasing, OnDisk;
    var lines, log := Lost(events), LogAfter(events);
    ReadIsWholeIff(events, Some(since), tail);
    LostAndKept(events);
    RecordsSplit(lines, OnDisk(log));
    NeverDecreasingEnd(Records(lines), Records(OnDisk(log)));
    RecordsOfSome(OnDisk(log));
    if lines == [] {
      NothingIsUnwanted(events, Some(since));
    } else {
      RecordsEnd(lines);
      LastIsLatest(Records(lines), Records(OnDisk(log)));
    }
  }

  lemma LastIsLatest(a: seq<LogRecord>, b: seq<LogRecord>)
    requires NeverDecreasing(a + b) && a != []
    ensures a[|a| - 1] in a && forall r :: r in a ==> r.ts <= a[|a| - 1].ts
  {
    assert forall i | 0 <= i < |a| :: (a + b)[i] == a[i];
  }

  lemma SecondRotates(a: Line, b: Line, limit: nat, policy: Option<nat>)
    requires a.size >= limit && b.size >= limit && IsLine(a) && IsLine(b) && Within(policy, limit)
    ensures var events := [Append(a, limit), Append(b, limit)];
            && LogAfter(events) == Log([b], [], Some(0)) && OnDisk(LogAfter(events)) == [b]
            && History(events) == [a, b] && Possible(events, policy)
  {
    hide LogAfter, History, Possible, PolicyOf, IsLine, Within;
    var first := [Append(a, limit)];
    OneRotated(a, limit, policy);
    Grows(first, Append(b, limit));
    PossibleMore(first, Append(b, limit), policy);
    assert first + [Append(b, limit)] == [Append(a, limit), Append(b, limit)];
    assert [] + [b] == [b] && [a] + [b] == [a, b] && [b] + [] == [b];
  }

  lemma RecordsOfTwo(a: Line, b: Line)
    ensures Records([b]) == [b.record] && Records([a, b]) == [a.record, b.record]
  {
    assert [b][1..] == [] && [a, b][1..] == [b];
  }

  /** Two lines of one moment, each of which fills a file, under whatever limit: a read since that moment is
      not flagged and misses the first. */
  lemma EqualTimesAreMissed(limit: nat, policy: Option<nat>)
    requires Within(policy, limit)
    ensures var line := At(7, limit);
            var events := [Append(line, limit), Append(line, limit)];
            && Possible(events, policy)
            && ReadOf(LogAfter(events), Some(7), None) == ([line.record], false)
            && Records(History(events)) == [line.record, line.record]
  {
    hide LogAfter, History, OnDisk, Possible, IsLine, Within, Records, Since;
    var line := At(7, limit);
    SecondRotates(line, line, limit, policy);
    RecordsOfTwo(line, line);
    SinceOne(line.record, 7);
  }

  lemma SinceOne(r: LogRecord, since: nat)
    ensures Since([r], since) == if r.ts >= since then [r] else []
  {
    assert [r][1..] == [];
  }

  /** A warning without a loss, and a loss without a warning: a time before the first record is flagged
      although nothing is missing, and a read of everything is never flagged by loss. */
  lemma FlagIsNotLoss(limit: nat, policy: Option<nat>)
    requires Within(policy, limit) && limit >= MIN_ROTATE_BYTES
    ensures var events := [Append(At(7, 0), limit)];
            Possible(events, policy) && ReadOf(LogAfter(events), Some(3), None).1 && Lost(events) == []
    ensures var events := [Append(At(7, limit), limit), Append(At(8, limit), limit)];
            && Possible(events, policy)
            && !ReadOf(LogAfter(events), None, None).1 && Lost(events) == [At(7, limit)]
  {
    hide LogAfter, History, OnDisk, Possible, IsLine, Within;
    var short, a, b := At(7, 0), At(7, limit), At(8, limit);
    OneKept(short, limit, policy);
    RecordsOfTwo(short, short);
    LostBefore([Append(short, limit)], []);
    SecondRotates(a, b, limit, policy);
    LostBefore([Append(a, limit), Append(b, limit)], [a]);
  }

  lemma OneKept(line: Line, limit: nat, policy: Option<nat>)
    requires line.size < limit && IsLine(line) && Within(policy, limit)
    ensures var e := [Append(line, limit)];
            && LogAfter(e) == Log([], [line], Some(line.size)) && OnDisk(LogAfter(e)) == [line]
            && History(e) == [] + [line] && Possible(e, policy)
  {
    hide LogAfter, History, Possible, PolicyOf, IsLine, Within;
    NothingYet();
    PossibleNone(policy);
    Grows([], Append(line, limit));
    PossibleMore([], Append(line, limit), policy);
    assert [] + [Append(line, limit)] == [Append(line, limit)] && [] + [line] == [line];
  }

  // ----- the store

  /** The log is what these events leave, and a writer open on it has this limit. */
  ghost predicate Tracks(log: Log, events: seq<Event>, limit: nat) {
    log == LogAfter(events) && Policed(events, None) && PolicyOf(events) in {None, Some(limit)}
  }

  lemma TracksNothing(limit: nat)
    ensures Tracks(NO_LOG, [], limit)
  {
  }

  lemma TracksAppend(log: Log, events: seq<Event>, line: Line, limit: nat)
    requires Tracks(log, events, limit) && limit >= MIN_ROTATE_BYTES
    ensures Tracks(Appended(log, line, limit), events + [Append(line, limit)], limit)
  {
    hide LogAfter, Policed, PolicyOf, Appended;
    Grows(events, Append(line, limit));
    PolicedMore(events, Append(line, limit), None);
  }

  lemma TracksRestart(log: Log, events: seq<Event>, limit: nat, next: nat)
    requires Tracks(log, events, limit)
    ensures Tracks(log.(bytes := None), events + [Restart], next)
  {
    hide LogAfter, Policed, PolicyOf;
    Grows(events, Restart);
    PolicedMore(events, Restart, None);
  }

  class LogStore {
    var rotateBytes: nat
    var logs: map<string, Log>
    /** What happened to each service since its first line. */
    ghost var events: map<string, seq<Event>>

    ghost predicate Valid()
      reads this
    {
      && logs.Keys == events.Keys && rotateBytes >= MIN_ROTATE_BYTES
      && forall s :: s in logs ==> Tracks(logs[s], events[s], rotateBytes)
    }

    static function Clamped(rotateBytes: nat): nat {
      if rotateBytes < MIN_ROTATE_BYTES then MIN_ROTATE_BYTES else rotateBytes
    }

    /** A store over an empty directory, under a policy that never rotates below the minimum. */
    constructor (rotateBytes: nat)
      ensures Valid() && logs == map[]
      ensures this.rotateBytes == Clamped(rotateBytes)
    {
      this.rotateBytes := Clamped(rotateBytes);
      logs := map[];
      events := map[];
    }

    /** A new process takes over the directory, with a limit of its own: the files stay, the writers are gone. */
    method Reopen(rotateBytes: nat)
      requires Valid()
      modifies this
      ensures Valid() && logs.Keys == old(logs.Keys) && this.rotateBytes == Clamped(rotateBytes)
      ensures forall s :: s in logs ==> events[s] == old(events[s]) + [Restart]
      ensures forall s :: s in logs ==> OnDisk(logs[s]) == OnDisk(old(logs[s]))
    {
      hide Tracks;
      this.rotateBytes := Clamped(rotateBytes);
      logs := map s | s in logs :: logs[s].(bytes := None);
      events := map s | s in events :: events[s] + [Restart];
      forall s | s in logs ensures Tracks(logs[s], events[s], this.rotateBytes) {
        TracksRestart(old(logs[s]), old(events[s]), old(this.rotateBytes), this.rotateBytes);
      }
    }

    /** Opens the writer of `service` on its first line, and hands the line to it. */
    method Append(service: string, line: Line)
      requires Valid()
      modifies `logs, `events
      ensures Valid() && logs.Keys == old(logs.Keys) + {service}
      ensures events[service] ==
              (if service in old(events) then old(events[service]) else []) + [Event.Append(line, rotateBytes)]
      ensures forall s :: s in old(logs) && s != service ==> logs[s] == old(logs[s]) && events[s] == old(events[s])
    {
      hide Tracks, Size;
      ghost var past := if service in events then events[service] else [];
      var log := if service in logs then logs[service] else NO_LOG;
      TracksNothing(rotateBytes);
      TracksAppend(log, past, line, rotateBytes);
      if log.bytes.None? {
        log := log.(bytes := Some(Size(log.active)));
      }
      log := Write(log, line);
      logs := logs[service := log];
      events := events[service := past + [Event.Append(line, rotateBytes)]];
    }

    method Write(log: Log, line: Line) returns (next: Log)
      requires log.bytes.Some?
      ensures next == Appended(log, line, rotateBytes)
    {
      next := log.(active := log.active + [line], bytes := Some(log.bytes.value + line.size));
      if next.bytes.value >= rotateBytes {
        next := Rotate(next);
      }
    }

    method Rotate(log: Log) returns (next: Log)
      ensures next.rotated == log.active && next.active == [] && next.bytes == Some(0)
    {
      next := Log(log.active, [], Some(0));
    }

    /** The records since a time, at most the last `tail` of them, and whether some may be missing. */
    method Read(service: string, since: Option<nat>, tail: Option<nat>)
      returns (records: seq<LogRecord>, truncated: bool)
      requires Valid()
      ensures (records, truncated) == ReadOf(if service in logs then logs[service] else NO_LOG, since, tail)
    {
      hide Records, Since, LogAfter, Valid;
      var log := if service in logs then logs[service] else NO_LOG;
      RecordsSplit(log.rotated, log.active);
      var all := Records(log.rotated) + Records(log.active);
      var earliest := if all == [] then None else Some(all[0].ts);
      if since.Some? {
        all := Since(all, since.value);
      }
      var truncatedBySince := since.Some? && earliest.Some? && since.value < earliest.value;
      var truncatedByTail := false;
      if tail.Some? && |all| > tail.value {
        truncatedByTail := true;
        all := all[|all| - tail.value..];
      }
      return all, truncatedBySince || truncatedByTail;
    }
  }
}
