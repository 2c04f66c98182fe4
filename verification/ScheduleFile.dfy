/**
 The legacy `scheduler.cfg`: its printer (services/legacy_export.py) and its parser
 (services/legacy_import.py), and the round trip between them.
 */
module ScheduleFile {
  import opened Wrappers
  import opened Decimal
  import opened TextLines

  /** A schedule entry; times are `HH:MM` or `HH:MM:SS` when printed. */
  datatype Entry = Entry(time: string, focus: int, mode: string, program: string)

  const HEADER := "// scheduler.cfg exported by e-Callisto NG"

  // ---- The stable sort by time ----

  /** In front of everything that is not earlier. */
  function InsertByTime(e: Entry, es: seq<Entry>): seq<Entry> {
    if es == [] || Before(e.time, es[0].time) then [e] + es else [es[0]] + InsertByTime(e, es[1..])
  }

  function SortedByTime(es: seq<Entry>): seq<Entry> {
    if es == [] then [] else InsertByTime(es[0], SortedByTime(es[1..]))
  }

  predicate InTimeOrder(es: seq<Entry>) {
    forall i, j :: 0 <= i < j < |es| ==> Before(es[i].time, es[j].time)
  }

  /** The entries of one time, in their order. */
  function AtTime(es: seq<Entry>, time: string): seq<Entry> {
    if es == [] then [] else (if es[0].time == time then [es[0]] else []) + AtTime(es[1..], time)
  }

  lemma {:induction false} InsertKeepsOrder(e: Entry, es: seq<Entry>)
    requires InTimeOrder(es)
    ensures InTimeOrder(InsertByTime(e, es))
    ensures multiset(InsertByTime(e, es)) == multiset{e} + multiset(es)
  {
    hide Before;
    if es == [] || Before(e.time, es[0].time) {
      forall j | 0 <= j < |es|
        ensures Before(e.time, es[j].time)
      {
        if j > 0 {
          BeforeIsTransitive(e.time, es[0].time, es[j].time);
        }
      }
    } else {
      InsertKeepsOrder(e, es[1..]);
      BeforeIsTotal(e.time, es[0].time);
      assert es == [es[0]] + es[1..];
      FirstStaysFirst(es[0], es[1..], e, InsertByTime(e, es[1..]));
    }
  }

  /** An entry that comes before all others and the new one comes before what they are together. */
  lemma FirstStaysFirst(first: Entry, es: seq<Entry>, e: Entry, tail: seq<Entry>)
    requires multiset(tail) == multiset{e} + multiset(es) && InTimeOrder(tail)
    requires Before(first.time, e.time) && forall i :: 0 <= i < |es| ==> Before(first.time, es[i].time)
    ensures InTimeOrder([first] + tail)
  {
    hide Before;
    forall j | 0 <= j < |tail|
      ensures Before(first.time, tail[j].time)
    {
      assert tail[j] in multiset(tail);
      if tail[j] != e {
        assert tail[j] in es;
      }
    }
  }

  lemma {:induction false} InsertKeepsTies(e: Entry, es: seq<Entry>, time: string)
    ensures AtTime(InsertByTime(e, es), time) == AtTime([e] + es, time)
  {
    assert ([e] + es)[1..] == es;
    if es != [] && !Before(e.time, es[0].time) {
      BeforeIsTotal(e.time, e.time);
      var tail := InsertByTime(e, es[1..]);
      InsertKeepsTies(e, es[1..], time);
      assert ([e] + es[1..])[1..] == es[1..];
      assert ([es[0]] + tail)[1..] == tail;
    }
  }

  /** Sorted by time, nothing lost or added, and entries of one time in their original order. */
  lemma {:induction false} SortIsStable(es: seq<Entry>, time: string)
    ensures InTimeOrder(SortedByTime(es))
    ensures multiset(SortedByTime(es)) == multiset(es)
    ensures AtTime(SortedByTime(es), time) == AtTime(es, time)
  {
    if es != [] {
      var tail := SortedByTime(es[1..]);
      SortIsStable(es[1..], time);
      InsertKeepsOrder(es[0], tail);
      InsertKeepsTies(es[0], tail, time);
      assert es == [es[0]] + es[1..];
      assert ([es[0]] + tail)[1..] == tail;
      hide SortedByTime, InsertByTime, InTimeOrder;
    }
  }

  // ---- The printer ----

  /** The time with its seconds. */
  function WithSeconds(time: string): string { if |time| == 8 then time else time + ":00" }

  function PrintedColumns(e: Entry): seq<string> {
    [WithSeconds(e.time), ShowInt(e.focus, 2), e.mode] + if e.program == "" then [] else [e.program]
  }

  function PrintEntry(e: Entry): string { JoinColumns(PrintedColumns(e)) }

  function ScheduleText(es: seq<Entry>): string {
    JoinLines([HEADER] + Map(PrintEntry, SortedByTime(es)))
  }

  lemma PrintedLine(time: string, focus: string, mode: string, program: string)
    ensures JoinColumns([time, focus, mode]) == time + "," + focus + "," + mode
    ensures JoinColumns([time, focus, mode, program]) == time + "," + focus + "," + mode + "," + program
  {
    assert [time, focus, mode][1..] == [focus, mode] && [focus, mode][1..] == [mode];
    assert [time, focus, mode, program][1..] == [focus, mode, program];
    assert [focus, mode, program][1..] == [mode, program] && [mode, program][1..] == [program];
    assert JoinColumns([mode, program]) == mode + "," + program;
    assert JoinColumns([focus, mode, program]) == focus + "," + mode + "," + program;
    assert JoinColumns([focus, mode]) == focus + "," + mode;
  }

  method BuildSchedulerCfg(es: seq<Entry>) returns (text: string)
    ensures text == ScheduleText(es)
  {
    var sorted := SortedByTime(es);
    var lines := [HEADER];
    for i := 0 to |sorted|
      invariant lines == [HEADER] + Map(PrintEntry, sorted[..i])
    {
      hide HEADER;
      var e := sorted[i];
      var line := WithSeconds(e.time) + "," + ShowInt(e.focus, 2) + "," + e.mode;
      PrintedLine(WithSeconds(e.time), ShowInt(e.focus, 2), e.mode, e.program);
      if e.program != "" {
        line := line + "," + e.program;
        assert PrintedColumns(e) == [WithSeconds(e.time), ShowInt(e.focus, 2), e.mode, e.program];
      } else {
        assert PrintedColumns(e) == [WithSeconds(e.time), ShowInt(e.focus, 2), e.mode];
      }
      hide WithSeconds, ShowInt, JoinColumns, PrintedColumns;
      assert line == PrintEntry(e);
      assert Map(PrintEntry, sorted[..i + 1]) == Map(PrintEntry, sorted[..i]) + [PrintEntry(e)];
      lines := lines + [line];
    }
    assert sorted[..|sorted|] == sorted;
    text := JoinLines(lines);
  }

  // ---- The parser ----

  function Upper(c: char): char {
    if 'a' <= c <= 'z' then (c as int - 32) as char else c
  }

  /** The first character of a trimmed mode, in upper case; empty when there is none. */
  function ModeOf(column: string): string {
    var m := Strip(column);
    if m == "" then "" else [Upper(m[0])]
  }

  function ParseEntry(raw: string): Option<Entry> {
    var line := Strip(raw);
    if line == "" || !IsDigit(line[0]) then None
    else
      var parts := Columns(line);
      if |parts| < 3 then None
      else
        var focus := ParseInt(Strip(parts[1]));
        var mode := ModeOf(parts[2]);
        if focus.None? || mode == "" then None
        else Some(Entry(parts[0], focus.value, mode, if |parts| > 3 then Strip(parts[3]) else ""))
  }

  function ParseEntries(lines: seq<string>): seq<Entry> {
    if lines == [] then []
    else
      var e := ParseEntry(lines[0]);
      (if e.Some? then [e.value] else []) + ParseEntries(lines[1..])
  }

  method ParseSchedulerCfg(text: string) returns (es: seq<Entry>)
    ensures es == ParseEntries(SplitLines(text))
  {
    hide SplitLines, ParseEntry;
    var lines := SplitLines(text);
    es := [];
    for i := 0 to |lines|
      invariant es + ParseEntries(lines[i..]) == ParseEntries(lines)
    {
      assert lines[i..][1..] == lines[i + 1..];
      var e := ParseEntry(lines[i]);
      if e.Some? {
        assert es + ([e.value] + ParseEntries(lines[i + 1..])) == es + [e.value] + ParseEntries(lines[i + 1..]);
        es := es + [e.value];
      } else {
        assert [] + ParseEntries(lines[i + 1..]) == ParseEntries(lines[i + 1..]);
      }
    }
    assert es + [] == es;
  }

  // ---- The round trip ----

  /** An entry the format can carry. */
  predicate Printable(e: Entry) {
    && e.time != "" && IsDigit(e.time[0]) && ',' !in e.time && NoBreak(e.time)
    && |e.mode| == 1 && !IsSpace(e.mode[0]) && e.mode[0] != ',' && !IsBreak(e.mode[0]) && Upper(e.mode[0]) == e.mode[0]
    && ',' !in e.program && NoBreak(e.program) && Trimmed(e.program)
  }

  function Normalised(e: Entry): Entry { e.(time := WithSeconds(e.time)) }

  lemma ShowIntIsPlain(i: int, width: nat)
    ensures var s := ShowInt(i, width); s != "" && ',' !in s && NoBreak(s) && Trimmed(s)
  {
    var s := ShowInt(i, width);
    assert forall k :: 0 <= k < |s| ==> s[k] == '-' || IsDigit(s[k]);
    assert forall c: char :: c == '-' || IsDigit(c) ==> !IsBreak(c) && !IsSpace(c) && c != ',';
  }

  lemma PrintedColumnsAreClean(e: Entry)
    requires Printable(e)
    ensures forall i :: 0 <= i < |PrintedColumns(e)| ==> ',' !in PrintedColumns(e)[i] && NoBreak(PrintedColumns(e)[i])
  {
    ShowIntIsPlain(e.focus, 2);
  }

  lemma {:induction false} LastOfJoin(cols: seq<string>)
    requires cols != [] && cols[|cols| - 1] != ""
    ensures var line := JoinColumns(cols);
      line != "" && line[|line| - 1] == cols[|cols| - 1][|cols[|cols| - 1]| - 1]
  {
    if |cols| > 1 {
      LastOfJoin(cols[1..]);
    }
  }

  lemma PrintedEntryIsALine(e: Entry)
    requires Printable(e)
    ensures NoBreak(PrintEntry(e)) && Trimmed(PrintEntry(e)) && PrintEntry(e) != "" && IsDigit(PrintEntry(e)[0])
  {
    PrintedColumnsAreClean(e);
    JoinHasNoBreak(PrintedColumns(e));
    LastOfJoin(PrintedColumns(e));
    assert PrintEntry(e)[0] == e.time[0];
  }

  lemma PrintedEntryParses(e: Entry)
    requires Printable(e)
    ensures ParseEntry(PrintEntry(e)) == Some(Normalised(e))
  {
    hide Columns, JoinColumns, ShowInt, ParseInt, Strip, NoBreak;
    PrintedEntryIsALine(e);
    TrimmedIsStripped(PrintEntry(e));
    PrintedColumnsAreClean(e);
    ColumnsOfJoin(PrintedColumns(e));
    ShowIntIsPlain(e.focus, 2);
    TrimmedIsStripped(ShowInt(e.focus, 2));
    ParseOfShowInt(e.focus, 2);
    TrimmedIsStripped(e.mode);
    TrimmedIsStripped(e.program);
    assert [Upper(e.mode[0])] == e.mode;
  }

  lemma {:induction false} PrintedEntriesParse(es: seq<Entry>)
    requires forall i :: 0 <= i < |es| ==> Printable(es[i])
    ensures ParseEntries(Map(PrintEntry, es)) == Map(Normalised, es)
  {
    hide ParseEntry, PrintEntry, Normalised, Printable;
    if es != [] {
      PrintedEntryParses(es[0]);
      PrintedEntriesParse(es[1..]);
      assert Map(PrintEntry, es)[1..] == Map(PrintEntry, es[1..]);
      assert Map(Normalised, es) == [Normalised(es[0])] + Map(Normalised, es[1..]);
    }
  }

  /** Reading a printed schedule gives exactly its entries, stably sorted by time, with the seconds filled in. */
  lemma ScheduleRoundTrip(es: seq<Entry>)
    requires forall i :: 0 <= i < |es| ==> Printable(es[i])
    ensures ParseEntries(SplitLines(ScheduleText(es))) == Map(Normalised, SortedByTime(es))
  {
    var sorted := SortedByTime(es);
    SortIsStable(es, "");
    forall i | 0 <= i < |sorted|
      ensures Printable(sorted[i]) && NoBreak(PrintEntry(sorted[i]))
    {
      assert sorted[i] in multiset(es);
      PrintedEntryIsALine(sorted[i]);
    }
    PrintedEntriesParse(sorted);
    HeaderIsSkipped();
    TextParses(HEADER, Map(PrintEntry, sorted));
  }

  lemma TextParses(header: string, lines: seq<string>)
    requires NoBreak(header) && ParseEntry(header) == None
    requires forall i :: 0 <= i < |lines| ==> NoBreak(lines[i])
    ensures ParseEntries(SplitLines(JoinLines([header] + lines))) == ParseEntries(lines)
  {
    hide SplitLines, JoinLines, ParseEntry, ParseEntries, NoBreak;
    SplitOfJoin([header] + lines);
    NoEntryFirst(header, lines);
  }

  lemma NoEntryFirst(line: string, lines: seq<string>)
    requires ParseEntry(line) == None
    ensures ParseEntries([line] + lines) == ParseEntries(lines)
  {
    hide ParseEntry;
    assert ([line] + lines)[1..] == lines;
    assert [] + ParseEntries(lines) == ParseEntries(lines);
  }

  // ---- Lines written by hand ----

  /** A letter in upper case, any other character as it is. */
  lemma UpperCase(c: char)
    ensures 'a' <= c && c <= 'z' ==> Upper(c) as int - 'A' as int == c as int - 'a' as int
    ensures c < 'a' || c > 'z' ==> Upper(c) == c
  {
  }

  /**
   What is read of a line of columns: it counts exactly with a digit at its start, three columns or more, an integer in
   the second and something in the third, whose first character is the mode.
   */
  lemma LineSays(cols: seq<string>)
    requires cols != [] && (forall i :: 0 <= i < |cols| ==> ',' !in cols[i]) && Trimmed(JoinColumns(cols))
    ensures var e := ParseEntry(JoinColumns(cols));
      && (e.Some? <==> cols[0] != "" && IsDigit(cols[0][0]) && |cols| >= 3
                       && ParseInt(Strip(cols[1])).Some? && Strip(cols[2]) != "")
      && (e.Some? ==>
            && e.value.time == cols[0] && ParseInt(Strip(cols[1])) == Some(e.value.focus)
            && e.value.mode == [Upper(Strip(cols[2])[0])]
            && e.value.program == if |cols| == 3 then "" else Strip(cols[3]))
  {
    hide Columns, ParseInt, Strip, IsSpace, Upper;
    TrimmedIsStripped(JoinColumns(cols));
    ColumnsOfJoin(cols);
    StartOfJoin(cols);
    hide JoinColumns;
  }

  lemma StartOfJoin(cols: seq<string>)
    requires cols != []
    ensures var line := JoinColumns(cols);
      && (cols[0] != "" ==> line != "" && line[0] == cols[0][0])
      && (cols[0] == "" && line != "" ==> !IsDigit(line[0]))
  {
  }

  // ---- What sorting the unnormalised times does to the normalised ones ----

  /** `HH:MM` or `HH:MM:SS`. */
  predicate IsClock(t: string) {
    && |t| in {5, 8} && t[2] == ':' && IsDigit(t[0]) && IsDigit(t[1]) && IsDigit(t[3]) && IsDigit(t[4])
    && (|t| == 8 ==> t[5] == ':' && IsDigit(t[6]) && IsDigit(t[7]))
  }

  predicate AllClocks(es: seq<Entry>) { forall i :: 0 <= i < |es| ==> IsClock(es[i].time) }

  lemma {:induction false} BeforeCut(a: string, b: string, k: nat)
    requires k <= |a| && k <= |b|
    ensures Before(a, b) <==> (if a[..k] == b[..k] then Before(a[k..], b[k..]) else Before(a[..k], b[..k]))
    decreases k
  {
    if k > 0 {
      BeforeCut(a[1..], b[1..], k - 1);
      assert a[..k] == [a[0]] + a[1..][..k - 1] && b[..k] == [b[0]] + b[1..][..k - 1];
      assert a[..k][1..] == a[1..][..k - 1] && b[..k][1..] == b[1..][..k - 1];
      assert a[k..] == a[1..][k - 1..] && b[k..] == b[1..][k - 1..];
    } else {
      assert a[0..] == a && b[0..] == b;
    }
  }

  /** No seconds count as the first second of the minute. */
  lemma SecondsKeepOrder(a: string, b: string)
    requires IsClock(a) && IsClock(b) && Before(a, b)
    ensures Before(WithSeconds(a), WithSeconds(b))
  {
    var c, d := WithSeconds(a), WithSeconds(b);
    BeforeCut(a, b, 5);
    BeforeCut(c, d, 5);
    assert c[..5] == a[..5] && d[..5] == b[..5];
    BeforeIsTotal(":00", ":00");
    if a[..5] == b[..5] && |a| == 5 {
      assert c[5..] == ":00";
      if |b| == 5 {
        assert d[5..] == ":00";
      } else {
        var s := d[5..];
        NoSecondIsEarlier(":00", s);
      }
    } else if a[..5] == b[..5] && |b| == 5 {
      assert b[5..] == "";
    }
  }

  lemma NoSecondIsEarlier(zero: string, s: string)
    requires zero == ":00" && |s| == 3 && s[0] == ':' && IsDigit(s[1]) && IsDigit(s[2])
    ensures Before(zero, s)
  {
    assert zero[1..][1..] == [zero[2]] && s[1..][1..] == [s[2]];
    assert zero[1..][0] == '0' && zero[2] == '0' && s[1..][0] == s[1];
    assert [zero[2]][1..] == "" && Before([zero[2]], [s[2]]);
    assert Before(zero[1..], s[1..]);
  }

  /** The file is in time order also after the seconds are filled in. */
  lemma ScheduleIsInTimeOrder(es: seq<Entry>)
    requires AllClocks(es)
    ensures InTimeOrder(Map(Normalised, SortedByTime(es)))
  {
    var sorted := SortedByTime(es);
    SortIsStable(es, "");
    forall i | 0 <= i < |sorted|
      ensures IsClock(sorted[i].time)
    {
      assert sorted[i] in multiset(es);
    }
    forall i, j | 0 <= i < j < |sorted|
      ensures Before(WithSeconds(sorted[i].time), WithSeconds(sorted[j].time))
    {
      SecondsKeepOrder(sorted[i].time, sorted[j].time);
    }
  }

  /**
   Stability holds per spelling only: of one minute, the entries written `HH:MM` come first and those written
   `HH:MM:00` after them, each group in its own order, however the two were mixed.
   */
  lemma ShortTimesComeFirst(es: seq<Entry>, minute: string)
    requires AllClocks(es) && |minute| == 5
    ensures AtTime(Map(Normalised, SortedByTime(es)), minute + ":00")
      == Map(Normalised, AtTime(es, minute)) + AtTime(es, minute + ":00")
  {
    var sorted := SortedByTime(es);
    SortIsStable(es, minute);
    SortIsStable(es, minute + ":00");
    forall i | 0 <= i < |sorted|
      ensures IsClock(sorted[i].time)
    {
      assert sorted[i] in multiset(es);
    }
    TiesOfSorted(sorted, minute, minute + ":00");
  }

  lemma {:induction false} TiesOfSorted(es: seq<Entry>, minute: string, full: string)
    requires AllClocks(es) && InTimeOrder(es) && |minute| == 5 && full == minute + ":00"
    ensures AtTime(Map(Normalised, es), full) == Map(Normalised, AtTime(es, minute)) + AtTime(es, full)
  {
    if es != [] {
      var e, tail := es[0], es[1..];
      if e.time == full {
        NoneShorterAfter(tail, minute, full);
      }
      TiesOfSorted(tail, minute, full);
      SpellingsOf(e.time, minute, full);
      hide AtTime, Map, InTimeOrder, AllClocks;
      OneMoreTie(e, tail, minute, full);
      assert es == [e] + tail;
    }
  }

  lemma OneMoreTie(e: Entry, tail: seq<Entry>, minute: string, full: string)
    requires AtTime(Map(Normalised, tail), full) == Map(Normalised, AtTime(tail, minute)) + AtTime(tail, full)
    requires e.time == full ==> AtTime(tail, minute) == []
    requires WithSeconds(e.time) == full <==> e.time == minute || e.time == full
    requires minute != full
    ensures AtTime(Map(Normalised, [e] + tail), full)
      == Map(Normalised, AtTime([e] + tail, minute)) + AtTime([e] + tail, full)
  {
    hide WithSeconds, AtTime, Map;
    NormalisedFirst(e, tail);
    AtTimeFirst(Normalised(e), Map(Normalised, tail), full);
    AtTimeFirst(e, tail, minute);
    AtTimeFirst(e, tail, full);
    NormalisedFirst(e, AtTime(tail, minute));
    assert [] + AtTime(tail, minute) == AtTime(tail, minute);
  }

  lemma NormalisedFirst(e: Entry, tail: seq<Entry>)
    ensures Map(Normalised, [e] + tail) == [Normalised(e)] + Map(Normalised, tail)
    ensures Map(Normalised, []) == []
  {
  }

  lemma AtTimeFirst(e: Entry, tail: seq<Entry>, time: string)
    ensures AtTime([e] + tail, time) == (if e.time == time then [e] else []) + AtTime(tail, time)
  {
    assert ([e] + tail)[1..] == tail;
  }

  lemma SpellingsOf(time: string, minute: string, full: string)
    requires IsClock(time) && |minute| == 5 && full == minute + ":00"
    ensures WithSeconds(time) == full <==> time == minute || time == full
    ensures WithSeconds(full) == full && minute != full
  {
    if WithSeconds(time) == full {
      assert time == WithSeconds(time)[..|time|] && minute == full[..5];
    }
  }

  lemma {:induction false} NoneShorterAfter(es: seq<Entry>, minute: string, full: string)
    requires |minute| == 5 && full == minute + ":00" && forall i :: 0 <= i < |es| ==> Before(full, es[i].time)
    ensures AtTime(es, minute) == []
  {
    if es != [] {
      NoneShorterAfter(es[1..], minute, full);
      BeforeCut(full, minute, 5);
      assert full[..5] == minute[..5] && minute[5..] == "";
    }
  }

  // ---- When the file is stable in the normalised times, too ----

  /** The stable sort by the time with its seconds. */
  function InsertByClock(e: Entry, es: seq<Entry>): seq<Entry> {
    if es == [] || Before(WithSeconds(e.time), WithSeconds(es[0].time)) then [e] + es
    else [es[0]] + InsertByClock(e, es[1..])
  }

  function SortedByClock(es: seq<Entry>): seq<Entry> {
    if es == [] then [] else InsertByClock(es[0], SortedByClock(es[1..]))
  }

  /** `a` is written with the seconds `00`, `b` without, and both mean the same minute. */
  predicate SameMinute(a: Entry, b: Entry) { |b.time| == 5 && a.time == WithSeconds(b.time) }

  /** Some entry written `HH:MM:00` stands in front of one written `HH:MM` of the same minute. */
  predicate Overtaken(es: seq<Entry>) {
    exists i, j :: 0 <= i < j < |es| && SameMinute(es[i], es[j])
  }

  /** The two orders differ only on the two spellings of one minute. */
  lemma OrdersAgree(a: Entry, b: Entry)
    requires IsClock(a.time) && IsClock(b.time)
    ensures Before(a.time, b.time) ==> Before(WithSeconds(a.time), WithSeconds(b.time))
    ensures Before(WithSeconds(a.time), WithSeconds(b.time)) ==> Before(a.time, b.time) || SameMinute(a, b)
    ensures SameMinute(a, b) ==> !Before(a.time, b.time) && Before(WithSeconds(a.time), WithSeconds(b.time))
  {
    BeforeIsTotal(a.time, b.time);
    if Before(a.time, b.time) {
      SecondsKeepOrder(a.time, b.time);
    } else {
      SecondsKeepOrder(b.time, a.time);
    }
    if SameMinute(a, b) {
      BeforeCut(a.time, b.time, 5);
      assert a.time[..5] == b.time[..5] && b.time[5..] == "";
      BeforeIsTotal(a.time, a.time);
    }
    if Before(WithSeconds(a.time), WithSeconds(b.time)) && !Before(a.time, b.time) {
      BeforeIsAntisymmetric(WithSeconds(a.time), WithSeconds(b.time));
      SameClock(a.time, b.time);
    }
  }

  lemma {:induction false} BeforeIsAntisymmetric(a: string, b: string)
    requires Before(a, b) && Before(b, a)
    ensures a == b
    decreases |a|
  {
    if a != "" && b != "" {
      BeforeIsAntisymmetric(a[1..], b[1..]);
      assert a == [a[0]] + a[1..] && b == [b[0]] + b[1..];
    }
  }

  lemma SameClock(a: string, b: string)
    requires IsClock(a) && IsClock(b) && WithSeconds(a) == WithSeconds(b) && !Before(a, b)
    ensures |b| == 5 && a == WithSeconds(b)
  {
    BeforeIsTotal(a, a);
    assert a == WithSeconds(a)[..|a|] && b == WithSeconds(b)[..|b|];
    BeforeCut(a, b, 5);
    var rest := a[5..];
    assert a[..5] == b[..5];
    assert |a| == 5 ==> rest == "";
  }

  /** Takes out the first entry equal to `e`. */
  function Without(es: seq<Entry>, e: Entry): seq<Entry> {
    if es == [] then [] else if es[0] == e then es[1..] else [es[0]] + Without(es[1..], e)
  }

  /** Both insertions put an entry in front of its equals, so that it can be taken out again. */
  lemma {:induction false} InsertedIsFirst(e: Entry, es: seq<Entry>)
    ensures Without(InsertByTime(e, es), e) == es && Without(InsertByClock(e, es), e) == es
  {
    BeforeIsTotal(e.time, e.time);
    BeforeIsTotal(WithSeconds(e.time), WithSeconds(e.time));
    assert ([e] + es)[1..] == es;
    if es != [] {
      InsertedIsFirst(e, es[1..]);
      var t, c := InsertByTime(e, es[1..]), InsertByClock(e, es[1..]);
      assert ([es[0]] + t)[1..] == t && ([es[0]] + c)[1..] == c && [es[0]] + es[1..] == es;
    }
  }

  /** An entry is inserted at the same place by both orders exactly when no other spelling of its minute is there. */
  lemma {:induction false} SamePlace(e: Entry, es: seq<Entry>)
    requires IsClock(e.time) && AllClocks(es) && InTimeOrder(es)
    ensures InsertByTime(e, es) == InsertByClock(e, es) <==> forall x <- es :: !SameMinute(e, x)
  {
    if es != [] {
      OrdersAgree(e, es[0]);
      hide IsClock, WithSeconds, Before;
      assert forall x :: x in es <==> x == es[0] || x in es[1..];
      var t, c := InsertByTime(e, es[1..]), InsertByClock(e, es[1..]);
      if SameMinute(e, es[0]) {
        assert InsertByTime(e, es)[0] == es[0] && InsertByClock(e, es)[0] == e;
      } else if !Before(e.time, es[0].time) {
        assert ([es[0]] + t)[1..] == t && ([es[0]] + c)[1..] == c;
        SamePlace(e, es[1..]);
      } else {
        NoShorterBehind(e, es);
      }
    }
  }

  /** Behind an entry that is not earlier there is no shorter spelling of the minute. */
  lemma NoShorterBehind(e: Entry, es: seq<Entry>)
    requires IsClock(e.time) && AllClocks(es) && InTimeOrder(es) && es != [] && Before(e.time, es[0].time)
    ensures forall x <- es :: !SameMinute(e, x)
  {
    forall x | x in es
      ensures !SameMinute(e, x)
    {
      var k :| 0 <= k < |es| && es[k] == x;
      if k > 0 {
        BeforeIsTransitive(e.time, es[0].time, x.time);
      }
      OrdersAgree(e, x);
    }
  }

  /** The file keeps the order of entries of one minute exactly when no short spelling overtakes a long one. */
  lemma {:induction false} StableExactlyWithoutOvertaking(es: seq<Entry>)
    requires AllClocks(es)
    ensures SortedByTime(es) == SortedByClock(es) <==> !Overtaken(es)
  {
    if es != [] {
      var e, tail := es[0], es[1..];
      StableExactlyWithoutOvertaking(tail);
      SortIsStable(tail, "");
      SortedAreClocks(tail);
      var byTime, byClock := SortedByTime(tail), SortedByClock(tail);
      InsertedIsFirst(e, byTime);
      InsertedIsFirst(e, byClock);
      SamePlace(e, byTime);
      OvertakenInParts(es);
      assert forall x :: x in byTime <==> x in multiset(byTime);
      assert forall x :: x in tail <==> x in multiset(tail);
    }
  }

  lemma SortedAreClocks(es: seq<Entry>)
    requires AllClocks(es)
    ensures AllClocks(SortedByTime(es))
  {
    SortIsStable(es, "");
    var sorted := SortedByTime(es);
    forall i | 0 <= i < |sorted|
      ensures IsClock(sorted[i].time)
    {
      assert sorted[i] in multiset(es);
    }
  }

  lemma OvertakenInParts(es: seq<Entry>)
    requires es != []
    ensures Overtaken(es) <==> Overtaken(es[1..]) || exists x <- es[1..] :: SameMinute(es[0], x)
  {
    hide SameMinute;
    if Overtaken(es) {
      var i, j :| 0 <= i < j < |es| && SameMinute(es[i], es[j]);
      assert es[1..][j - 1] == es[j] && (i > 0 ==> es[1..][i - 1] == es[i]);
    }
    if Overtaken(es[1..]) {
      var i, j :| 0 <= i < j < |es[1..]| && SameMinute(es[1..][i], es[1..][j]);
      assert es[i + 1] == es[1..][i] && es[j + 1] == es[1..][j];
    }
    if x :| x in es[1..] && SameMinute(es[0], x) {
      var j :| 0 <= j < |es[1..]| && es[1..][j] == x;
      assert es[j + 1] == x;
    }
  }

  /** Sorting by the time with seconds is sorting what the file holds. */
  lemma {:induction false} ClockOrderIsNormalised(es: seq<Entry>)
    requires AllClocks(es)
    ensures Map(Normalised, SortedByClock(es)) == SortedByTime(Map(Normalised, es))
  {
    if es != [] {
      ClockOrderIsNormalised(es[1..]);
      assert Map(Normalised, es)[1..] == Map(Normalised, es[1..]) && Map(Normalised, es)[0] == Normalised(es[0]);
      InsertNormalised(es[0], SortedByClock(es[1..]));
    }
  }

  lemma {:induction false} InsertNormalised(e: Entry, es: seq<Entry>)
    ensures Map(Normalised, InsertByClock(e, es)) == InsertByTime(Normalised(e), Map(Normalised, es))
  {
    hide WithSeconds, Before;
    var ns := Map(Normalised, es);
    if es == [] || Before(WithSeconds(e.time), WithSeconds(es[0].time)) {
      assert Map(Normalised, [e] + es) == [Normalised(e)] + ns;
    } else {
      InsertNormalised(e, es[1..]);
      assert ns[1..] == Map(Normalised, es[1..]);
      assert Map(Normalised, [es[0]] + InsertByClock(e, es[1..]))
          == [Normalised(es[0])] + Map(Normalised, InsertByClock(e, es[1..]));
    }
  }

  /** Without overtaking the file holds the stable order of its own times. */
  lemma FileIsStableWithoutOvertaking(es: seq<Entry>)
    requires AllClocks(es) && !Overtaken(es)
    ensures Map(Normalised, SortedByTime(es)) == SortedByTime(Map(Normalised, es))
  {
    StableExactlyWithoutOvertaking(es);
    ClockOrderIsNormalised(es);
  }

  /** Overtaking need not show in the file: here two pairs that are printed alike change places. */
  lemma OvertakingCanLeaveNoTrace(a: Entry, b: Entry)
    requires a.time == b.time == "12:00:00"
    ensures var es := [a, b, a.(time := "12:00"), b.(time := "12:00")];
      AllClocks(es) && Overtaken(es) && Map(Normalised, SortedByTime(es)) == SortedByTime(Map(Normalised, es))
  {
    PairsChangePlaces(a, b, "12:00", "12:00:00");
  }

  lemma PairsChangePlaces(a: Entry, b: Entry, short: string, full: string)
    requires a.time == b.time == full && IsClock(short) && |short| == 5 && full == short + ":00"
    ensures var es := [a, b, a.(time := short), b.(time := short)];
      AllClocks(es) && Overtaken(es) && Map(Normalised, SortedByTime(es)) == SortedByTime(Map(Normalised, es))
  {
    var c, d := a.(time := short), b.(time := short);
    var es := [a, b, c, d];
    assert SameMinute(es[0], es[2]);
    ShortIsFirst(short, full);
    SortFour(a, b, c, d);
    hide Before, InsertByTime, SortedByTime;
    assert Map(Normalised, es) == [a, b, a, b];
    SortFour(a, b, a, b);
    assert Map(Normalised, [c, d, a, b]) == [a, b, a, b];
  }

  lemma ShortIsFirst(short: string, full: string)
    requires |short| == 5 && full == short + ":00"
    ensures !Before(full, short)
  {
    BeforeCut(full, short, 5);
    assert full[..5] == short[..5] && short[5..] == "" && full[5..] == ":00";
  }

  /** Two entries of one time, then two of another, which is the same or an earlier one. */
  lemma SortFour(a: Entry, b: Entry, c: Entry, d: Entry)
    requires a.time == b.time && c.time == d.time && (a.time == c.time || !Before(a.time, c.time))
    ensures SortedByTime([a, b, c, d]) == if a.time == c.time then [a, b, c, d] else [c, d, a, b]
  {
    BeforeIsTotal(a.time, a.time);
    BeforeIsTotal(c.time, c.time);
    hide Before;
    assert [a, b, c, d][1..] == [b, c, d] && [b, c, d][1..] == [c, d] && [c, d][1..] == [d] && [d][1..] == [];
    assert SortedByTime([d]) == [d];
    assert SortedByTime([c, d]) == InsertByTime(c, [d]) == [c, d];
    if a.time == c.time {
      assert SortedByTime([b, c, d]) == InsertByTime(b, [c, d]) == [b, c, d];
      assert InsertByTime(a, [b, c, d]) == [a, b, c, d];
    } else {
      assert InsertByTime(b, []) == [b] && InsertByTime(b, [d]) == [d, b];
      assert SortedByTime([b, c, d]) == InsertByTime(b, [c, d]) == [c, d, b];
      assert [c, d, b][1..] == [d, b] && [d, b][1..] == [b];
      assert InsertByTime(a, [b]) == [a, b] && InsertByTime(a, [d, b]) == [d, a, b];
      assert InsertByTime(a, [c, d, b]) == [c, d, a, b];
    }
  }

  lemma HeaderIsSkipped()
    ensures NoBreak(HEADER) && ParseEntry(HEADER) == None
  {
    HeaderHasNoBreak();
    HeaderEnds();
    hide HEADER, NoBreak;
    NoDigitNoEntry(HEADER);
  }

  lemma HeaderHasNoBreak()
    ensures NoBreak(HEADER)
  {
  }

  lemma HeaderEnds()
    ensures HEADER != "" && HEADER[0] == '/' && HEADER[|HEADER| - 1] == 'G'
  {
  }

  lemma NoDigitNoEntry(line: string)
    requires line != "" && Trimmed(line) && !IsDigit(line[0])
    ensures ParseEntry(line) == None
  {
    hide Columns, Strip;
    TrimmedIsStripped(line);
  }
}
