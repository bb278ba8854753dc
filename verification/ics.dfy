/**
 * The iCalendar export: one VEVENT block per entry (section 3.6.1 of RFC 5545)
 * inside a VCALENDAR object (section 3.4), DATE-TIME values in floating local
 * form (section 3.3.5, form 1) and an optional RRULE with a FREQ part
 * (sections 3.8.5.3 and 3.3.10). As in the application, TEXT values are not
 * escaped (section 3.3.11), lines are not folded (section 3.1), and lines are
 * joined with a bare line feed.
 *
 * The wall clock read for DTSTAMP and the random UID are not computed here:
 * each event block takes them as parameters.
 */
module Ics {
  import opened Wrappers
  import opened Text
  import opened DateTimes
  import opened EventStore

  const CalendarHeader: seq<string> :=
    ["BEGIN:VCALENDAR", "VERSION:2.0", "PRODID:-//Calendar Entry App//Streamlit//EN", "CALSCALE:GREGORIAN"]
  const CalendarFooter: string := "END:VCALENDAR"

  /** The recurrence text after upper-casing and stripping, as the exporter compares it. */
  function Canonical(repeats: string): string {
    Strip(Upper(repeats))
  }

  /**
   * The FREQ value for a stored recurrence: nothing for an empty value or
   * "NONE", ANNUALLY renamed to YEARLY, and only the four RFC values kept.
   */
  function Frequency(repeats: string): (f: Option<string>)
    ensures f.Some? ==> f.value == "DAILY" || f.value == "WEEKLY" || f.value == "MONTHLY" || f.value == "YEARLY"
  {
    if repeats == "" || repeats == "NONE" then None
    else
      var freq := Canonical(repeats);
      var freq := if freq == "ANNUALLY" then "YEARLY" else freq;
      if freq in ["DAILY", "WEEKLY", "MONTHLY", "YEARLY"] then Some(freq) else None
  }

  lemma CanonicalOfLiteral(s: string)
    requires forall k :: 0 <= k < |s| ==> 'A' <= s[k] <= 'Z'
    ensures Canonical(s) == s
  {
    assert Upper(s) == s;
    if s != [] {
      assert !IsSpace(s[0]) && !IsSpace(s[|s| - 1]);
      assert LeadingSpaces(s) == 0;
      assert TrailingStart(s) == |s|;
    }
  }

  /**
   * Which recurrence values produce which FREQ: case and surrounding
   * whitespace do not matter, ANNUALLY and YEARLY both give YEARLY, and every
   * other value gives no RRULE at all.
   */
  lemma {:induction false} FrequencyCharacterized(repeats: string)
    ensures Frequency(repeats) == Some("YEARLY") <==> Canonical(repeats) == "ANNUALLY" || Canonical(repeats) == "YEARLY"
    ensures Frequency(repeats) == Some("DAILY") <==> Canonical(repeats) == "DAILY"
    ensures Frequency(repeats) == Some("WEEKLY") <==> Canonical(repeats) == "WEEKLY"
    ensures Frequency(repeats) == Some("MONTHLY") <==> Canonical(repeats) == "MONTHLY"
    ensures Frequency(repeats) == None <==>
      Canonical(repeats) !in ["DAILY", "WEEKLY", "MONTHLY", "ANNUALLY", "YEARLY"]
  {
    if repeats == "" {
      assert Canonical(repeats) == "";
    } else if repeats == "NONE" {
      CanonicalOfLiteral("NONE");
    }
  }

  /** The five choices of the Repeats selector: NONE gives no RRULE, ANNUALLY gives YEARLY. */
  lemma SelectorNone()
    ensures Frequency("NONE") == None
  {
  }

  lemma SelectorPassThrough(choice: string)
    requires choice == "DAILY" || choice == "WEEKLY" || choice == "MONTHLY"
    ensures Frequency(choice) == Some(choice)
  {
    assert forall k :: 0 <= k < |choice| ==> 'A' <= choice[k] <= 'Z';
    TokenPassesThrough(choice);
  }

  lemma TokenPassesThrough(t: string)
    requires t == "DAILY" || t == "WEEKLY" || t == "MONTHLY" || t == "YEARLY"
    requires forall k :: 0 <= k < |t| ==> 'A' <= t[k] <= 'Z'
    ensures Frequency(t) == Some(t)
  {
    CanonicalOfLiteral(t);
    assert t != "" && t != "NONE" && t != "ANNUALLY";
  }

  lemma SelectorAnnually()
    ensures Frequency("ANNUALLY") == Some("YEARLY")
  {
    CanonicalOfLiteral("ANNUALLY");
    assert "ANNUALLY" != "" && "ANNUALLY" != "NONE";
    assert "YEARLY" in ["DAILY", "WEEKLY", "MONTHLY", "YEARLY"];
  }

  /** The RRULE line of a block, if the recurrence has a FREQ. */
  function RruleLines(repeats: string): seq<string> {
    FreqLines(Frequency(repeats))
  }

  function FreqLines(freq: Option<string>): seq<string> {
    match freq
    case Some(f) => ["RRULE:FREQ=" + f]
    case None => []
  }

  /** A FREQ line is one of the four RFC rules, so it holds no newline. */
  lemma FreqLinesNoNewlines(freq: Option<string>)
    requires freq.Some? ==> freq.value == "DAILY" || freq.value == "WEEKLY" || freq.value == "MONTHLY" || freq.value == "YEARLY"
    ensures NoNewlines(FreqLines(freq))
  {
    if freq.Some? {
      assert '\n' !in freq.value;
      assert '\n' !in "RRULE:FREQ=";
    }
  }

  /** The seven lines every VEVENT block starts with. */
  function BlockHead(startDt: DateTime, endDt: DateTime, description: string, now: DateTime, uid: string): seq<string>
  {
    ["BEGIN:VEVENT",
     "DTSTAMP:" + Compact(now),
     "UID:" + uid,
     "DTSTART:" + Compact(startDt),
     "DTEND:" + Compact(endDt),
     "SUMMARY:" + description,
     "DESCRIPTION:" + description]
  }

  /** The lines of one VEVENT block, in the application's fixed order. */
  function EventLines(startDt: DateTime, endDt: DateTime, description: string, repeats: string,
                      now: DateTime, uid: string): seq<string>
  {
    BlockHead(startDt, endDt, description, now, uid) + RruleLines(repeats) + ["END:VEVENT"]
  }

  /** One event as text: its block's lines joined by newlines. */
  function CreateIcsEvent(startDt: DateTime, endDt: DateTime, description: string, repeats: string,
                          now: DateTime, uid: string): string
  {
    JoinLines(EventLines(startDt, endDt, description, repeats, now, uid))
  }

  /**
   * A block is 8 lines, or 9 when the recurrence has a FREQ. Its first seven
   * lines are the head, starting with BEGIN:VEVENT; its last line is
   * END:VEVENT; SUMMARY and DESCRIPTION carry the same, unescaped text.
   */
  lemma EventBlockShape(startDt: DateTime, endDt: DateTime, description: string, repeats: string,
                        now: DateTime, uid: string)
    ensures var lines := EventLines(startDt, endDt, description, repeats, now, uid);
      && (|lines| == 8 || |lines| == 9)
      && (|lines| == 9 <==> Frequency(repeats).Some?)
      && lines[..7] == BlockHead(startDt, endDt, description, now, uid)
      && lines[0] == "BEGIN:VEVENT" && lines[|lines| - 1] == "END:VEVENT"
      && lines[2] == "UID:" + uid
      && lines[5] == "SUMMARY:" + description && lines[6] == "DESCRIPTION:" + description
      && (|lines| == 9 ==> lines[7] == "RRULE:FREQ=" + Frequency(repeats).value)
  {
    var head := BlockHead(startDt, endDt, description, now, uid);
    var rrule := RruleLines(repeats);
    var lines := EventLines(startDt, endDt, description, repeats, now, uid);
    assert |rrule| == 1 <==> Frequency(repeats).Some?;
    assert lines == head + rrule + ["END:VEVENT"];
    assert forall k :: 0 <= k < 7 ==> lines[k] == head[k];
  }

  /** The DTSTAMP, DTSTART and DTEND lines read back as the date-times they were written from. */
  lemma EventBlockStamps(startDt: DateTime, endDt: DateTime, description: string, now: DateTime, uid: string)
    requires Valid(startDt) && Valid(endDt) && Valid(now)
    ensures var head := BlockHead(startDt, endDt, description, now, uid);
      && head[1][..8] == "DTSTAMP:" && ParseCompact(head[1][8..]) == Some(now)
      && head[3][..8] == "DTSTART:" && ParseCompact(head[3][8..]) == Some(startDt)
      && head[4][..6] == "DTEND:" && ParseCompact(head[4][6..]) == Some(endDt)
  {
    var head := BlockHead(startDt, endDt, description, now, uid);
    assert head[1] == "DTSTAMP:" + Compact(now);
    assert head[3] == "DTSTART:" + Compact(startDt);
    assert head[4] == "DTEND:" + Compact(endDt);
    StampLineReadsBack("DTSTAMP:", now);
    StampLineReadsBack("DTSTART:", startDt);
    StampLineReadsBack("DTEND:", endDt);
  }

  lemma StampLineReadsBack(name: string, dt: DateTime)
    requires Valid(dt)
    ensures (name + Compact(dt))[..|name|] == name
    ensures ParseCompact((name + Compact(dt))[|name|..]) == Some(dt)
  {
    assert (name + Compact(dt))[|name|..] == Compact(dt);
    CompactRoundTrip(dt);
  }

  /**
   * The block of a stored event starts with its head, whose DTSTART and DTEND
   * values read back as the event's start and end, the end not before the start.
   */
  lemma StoredEventStampsReadBack(e: Event, now: DateTime, uid: string)
    requires WellFormed(e) && Valid(now)
    ensures EventLinesOf(e, now, uid)[..7] == BlockHead(e.fromDate, e.toDate, e.description, now, uid)
    ensures var head := BlockHead(e.fromDate, e.toDate, e.description, now, uid);
      && ParseCompact(head[3][8..]) == Some(e.fromDate)
      && ParseCompact(head[4][6..]) == Some(e.toDate)
      && !Before(e.toDate, e.fromDate)
  {
    EventBlockStamps(e.fromDate, e.toDate, e.description, now, uid);
  }

  function EventLinesOf(e: Event, now: DateTime, uid: string): seq<string> {
    EventLines(e.fromDate, e.toDate, e.description, e.repeats, now, uid)
  }

  /** The block of each entry, in entry order; entry k is stamped stamps[k] and named uids[k]. */
  function Blocks(entries: seq<Event>, stamps: seq<DateTime>, uids: seq<string>): seq<seq<string>>
    requires |stamps| == |entries| && |uids| == |entries|
  {
    seq(|entries|, k requires 0 <= k < |entries| => EventLinesOf(entries[k], stamps[k], uids[k]))
  }

  /** The lines of the blocks, one block after another. */
  function Flatten(blocks: seq<seq<string>>): seq<string>
  {
    if blocks == [] then [] else Flatten(blocks[..|blocks| - 1]) + blocks[|blocks| - 1]
  }

  /** The whole document as a list of lines. */
  function DocumentLines(entries: seq<Event>, stamps: seq<DateTime>, uids: seq<string>): seq<string>
    requires |stamps| == |entries| && |uids| == |entries|
  {
    CalendarHeader + Flatten(Blocks(entries, stamps, uids)) + [CalendarFooter]
  }

  lemma BlocksPrefix(entries: seq<Event>, stamps: seq<DateTime>, uids: seq<string>, i: nat)
    requires |stamps| == |entries| && |uids| == |entries| && i <= |entries|
    ensures Blocks(entries[..i], stamps[..i], uids[..i]) == Blocks(entries, stamps, uids)[..i]
  {
  }

  lemma {:induction false} FlattenAppend(a: seq<seq<string>>, b: seq<seq<string>>)
    ensures Flatten(a + b) == Flatten(a) + Flatten(b)
    decreases |b|
  {
    if b == [] {
      assert a + b == a;
    } else {
      assert (a + b)[..|a + b| - 1] == a + b[..|b| - 1];
      FlattenAppend(a, b[..|b| - 1]);
    }
  }

  lemma FlattenSnoc(a: seq<seq<string>>, b: seq<string>)
    ensures Flatten(a + [b]) == Flatten(a) + b
  {
    assert (a + [b])[..|a|] == a;
  }

  lemma BlocksSuffix(entries: seq<Event>, stamps: seq<DateTime>, uids: seq<string>, i: nat)
    requires |stamps| == |entries| && |uids| == |entries| && i <= |entries|
    ensures Blocks(entries[i..], stamps[i..], uids[i..]) == Blocks(entries, stamps, uids)[i..]
  {
  }

  lemma FlattenAt(blocks: seq<seq<string>>, k: nat)
    requires k < |blocks|
    ensures Flatten(blocks) == Flatten(blocks[..k]) + blocks[k] + Flatten(blocks[k + 1..])
  {
    FlattenSplit(blocks, k + 1);
    FlattenTake(blocks, k);
  }

  lemma FlattenSplit(blocks: seq<seq<string>>, j: nat)
    requires j <= |blocks|
    ensures Flatten(blocks) == Flatten(blocks[..j]) + Flatten(blocks[j..])
  {
    assert blocks[..j] + blocks[j..] == blocks;
    FlattenAppend(blocks[..j], blocks[j..]);
  }

  lemma FlattenTake(blocks: seq<seq<string>>, k: nat)
    requires k < |blocks|
    ensures Flatten(blocks[..k + 1]) == Flatten(blocks[..k]) + blocks[k]
  {
    assert blocks[..k + 1][..k] == blocks[..k];
  }

  /**
   * Between the calendar header and footer, the document holds entry k's
   * block right after the blocks of the entries before it and right before
   * the blocks of the entries after it.
   */
  lemma BlocksInEntryOrder(entries: seq<Event>, stamps: seq<DateTime>, uids: seq<string>, k: nat)
    requires |stamps| == |entries| && |uids| == |entries| && k < |entries|
    ensures Flatten(Blocks(entries, stamps, uids))
      == Flatten(Blocks(entries[..k], stamps[..k], uids[..k]))
         + EventLinesOf(entries[k], stamps[k], uids[k])
         + Flatten(Blocks(entries[k + 1..], stamps[k + 1..], uids[k + 1..]))
  {
    BlocksPrefix(entries, stamps, uids, k);
    BlocksSuffix(entries, stamps, uids, k + 1);
    FlattenAt(Blocks(entries, stamps, uids), k);
  }

  /** An empty list exports the four header lines and the footer, and nothing else. */
  lemma EmptyExport()
    ensures DocumentLines([], [], []) == CalendarHeader + [CalendarFooter]
    ensures |DocumentLines([], [], [])| == 5
  {
  }

  /** How many entries get an RRULE line. */
  function RecurringCount(entries: seq<Event>): nat
  {
    if entries == [] then 0
    else RecurringCount(entries[..|entries| - 1]) + (if Frequency(entries[|entries| - 1].repeats).Some? then 1 else 0)
  }

  lemma BlocksSnoc(entries: seq<Event>, stamps: seq<DateTime>, uids: seq<string>, i: nat)
    requires |stamps| == |entries| && |uids| == |entries| && i < |entries|
    ensures Blocks(entries[..i + 1], stamps[..i + 1], uids[..i + 1])
      == Blocks(entries[..i], stamps[..i], uids[..i]) + [EventLinesOf(entries[i], stamps[i], uids[i])]
  {
    BlocksPrefix(entries, stamps, uids, i);
    BlocksPrefix(entries, stamps, uids, i + 1);
    TakeSnoc(Blocks(entries, stamps, uids), i);
  }

  lemma BlocksLast(entries: seq<Event>, stamps: seq<DateTime>, uids: seq<string>)
    requires |stamps| == |entries| && |uids| == |entries| && entries != []
    ensures var n := |entries| - 1;
      Blocks(entries, stamps, uids)
        == Blocks(entries[..n], stamps[..n], uids[..n]) + [EventLinesOf(entries[n], stamps[n], uids[n])]
  {
    var n := |entries| - 1;
    BlocksPrefix(entries, stamps, uids, n);
    TakeSnoc(Blocks(entries, stamps, uids), n);
    assert Blocks(entries, stamps, uids)[..n + 1] == Blocks(entries, stamps, uids);
  }

  lemma TakeSnoc<T>(s: seq<T>, i: nat)
    requires i < |s|
    ensures s[..i + 1] == s[..i] + [s[i]]
  {
  }

  lemma EventBlockLength(e: Event, now: DateTime, uid: string)
    ensures |EventLinesOf(e, now, uid)| == 8 + (if Frequency(e.repeats).Some? then 1 else 0)
  {
  }

  /** Five wrapper lines, eight per event and one more per recurring event. */
  lemma DocumentLineCount(entries: seq<Event>, stamps: seq<DateTime>, uids: seq<string>)
    requires |stamps| == |entries| && |uids| == |entries|
    ensures |DocumentLines(entries, stamps, uids)| == 5 + 8 * |entries| + RecurringCount(entries)
  {
    BlockLinesCount(entries, stamps, uids);
  }

  lemma {:induction false} BlockLinesCount(entries: seq<Event>, stamps: seq<DateTime>, uids: seq<string>)
    requires |stamps| == |entries| && |uids| == |entries|
    ensures |Flatten(Blocks(entries, stamps, uids))| == 8 * |entries| + RecurringCount(entries)
    decreases |entries|
  {
    if entries != [] {
      var n := |entries| - 1;
      var before := Blocks(entries[..n], stamps[..n], uids[..n]);
      var block := EventLinesOf(entries[n], stamps[n], uids[n]);
      BlockLinesCount(entries[..n], stamps[..n], uids[..n]);
      BlocksLast(entries, stamps, uids);
      FlattenSnoc(before, block);
      EventBlockLength(entries[n], stamps[n], uids[n]);
    }
  }

  /** Number of lines equal to line. */
  function Occurrences(lines: seq<string>, line: string): nat
  {
    if lines == [] then 0
    else Occurrences(lines[..|lines| - 1], line) + (if lines[|lines| - 1] == line then 1 else 0)
  }

  lemma {:induction false} OccurrencesAppend(a: seq<string>, b: seq<string>, line: string)
    ensures Occurrences(a + b, line) == Occurrences(a, line) + Occurrences(b, line)
    decreases |b|
  {
    if b == [] {
      assert a + b == a;
    } else {
      assert (a + b)[..|a + b| - 1] == a + b[..|b| - 1];
      OccurrencesAppend(a, b[..|b| - 1], line);
    }
  }

  lemma {:induction false} OccurrencesNone(lines: seq<string>, line: string)
    requires forall k :: 0 <= k < |lines| ==> lines[k] != line
    ensures Occurrences(lines, line) == 0
  {
    if lines != [] {
      OccurrencesNone(lines[..|lines| - 1], line);
    }
  }

  /** Lines that begin with neither 'B' nor 'E' are no block markers. */
  predicate NoMarkerLines(lines: seq<string>) {
    forall k :: 0 <= k < |lines| ==> |lines[k]| > 0 && lines[k][0] != 'B' && lines[k][0] != 'E'
  }

  lemma {:induction false} NoMarkerOccurrences(lines: seq<string>)
    requires NoMarkerLines(lines)
    ensures Occurrences(lines, "BEGIN:VEVENT") == 0 && Occurrences(lines, "END:VEVENT") == 0
  {
    if lines != [] {
      NoMarkerOccurrences(lines[..|lines| - 1]);
      assert "BEGIN:VEVENT"[0] == 'B' && "END:VEVENT"[0] == 'E';
    }
  }

  lemma HeadMarkers(startDt: DateTime, endDt: DateTime, description: string, now: DateTime, uid: string)
    ensures var head := BlockHead(startDt, endDt, description, now, uid);
      Occurrences(head, "BEGIN:VEVENT") == 1 && Occurrences(head, "END:VEVENT") == 0
  {
    var head := BlockHead(startDt, endDt, description, now, uid);
    assert head == [head[0]] + head[1..];
    assert NoMarkerLines(head[1..]) by {
      assert head[1][0] == 'D' && head[2][0] == 'U' && head[3][0] == 'D';
      assert head[4][0] == 'D' && head[5][0] == 'S' && head[6][0] == 'D';
    }
    NoMarkerOccurrences(head[1..]);
    OccurrencesAppend([head[0]], head[1..], "BEGIN:VEVENT");
    OccurrencesAppend([head[0]], head[1..], "END:VEVENT");
    assert [head[0]][..0] == [];
  }

  lemma RruleMarkers(repeats: string)
    ensures Occurrences(RruleLines(repeats), "BEGIN:VEVENT") == 0
    ensures Occurrences(RruleLines(repeats), "END:VEVENT") == 0
  {
    var rrule := RruleLines(repeats);
    if rrule != [] {
      assert rrule[0][0] == 'R';
    }
    NoMarkerOccurrences(rrule);
  }

  /** Each block has exactly one BEGIN:VEVENT line and one END:VEVENT line. */
  lemma EventBlockMarkers(e: Event, now: DateTime, uid: string)
    ensures Occurrences(EventLinesOf(e, now, uid), "BEGIN:VEVENT") == 1
    ensures Occurrences(EventLinesOf(e, now, uid), "END:VEVENT") == 1
  {
    var head := BlockHead(e.fromDate, e.toDate, e.description, now, uid);
    var rrule := RruleLines(e.repeats);
    HeadMarkers(e.fromDate, e.toDate, e.description, now, uid);
    RruleMarkers(e.repeats);
    OccurrencesAppend(head + rrule, ["END:VEVENT"], "BEGIN:VEVENT");
    OccurrencesAppend(head + rrule, ["END:VEVENT"], "END:VEVENT");
    OccurrencesAppend(head, rrule, "BEGIN:VEVENT");
    OccurrencesAppend(head, rrule, "END:VEVENT");
    assert ["END:VEVENT"][..0] == [];
  }

  lemma {:induction false} OccurrencesFlatten(blocks: seq<seq<string>>, line: string)
    requires forall k :: 0 <= k < |blocks| ==> Occurrences(blocks[k], line) == 1
    ensures Occurrences(Flatten(blocks), line) == |blocks|
  {
    if blocks != [] {
      var n := |blocks| - 1;
      OccurrencesFlatten(blocks[..n], line);
      OccurrencesAppend(Flatten(blocks[..n]), blocks[n], line);
    }
  }

  lemma WrapperMarkers()
    ensures Occurrences(CalendarHeader, "BEGIN:VEVENT") == 0 && Occurrences(CalendarHeader, "END:VEVENT") == 0
    ensures Occurrences([CalendarFooter], "BEGIN:VEVENT") == 0 && Occurrences([CalendarFooter], "END:VEVENT") == 0
  {
    assert CalendarHeader[0][5..7] == ":V" && CalendarHeader[0][7] == 'C';
    OccurrencesNone(CalendarHeader, "BEGIN:VEVENT");
    OccurrencesNone(CalendarHeader, "END:VEVENT");
    assert CalendarFooter[5] == 'C';
    OccurrencesNone([CalendarFooter], "BEGIN:VEVENT");
    OccurrencesNone([CalendarFooter], "END:VEVENT");
  }

  /** The document has one BEGIN:VEVENT and one END:VEVENT line per entry, so none for an empty list. */
  lemma DocumentMarkers(entries: seq<Event>, stamps: seq<DateTime>, uids: seq<string>)
    requires |stamps| == |entries| && |uids| == |entries|
    ensures Occurrences(DocumentLines(entries, stamps, uids), "BEGIN:VEVENT") == |entries|
    ensures Occurrences(DocumentLines(entries, stamps, uids), "END:VEVENT") == |entries|
  {
    var blocks := Blocks(entries, stamps, uids);
    forall k | 0 <= k < |blocks|
      ensures Occurrences(blocks[k], "BEGIN:VEVENT") == 1 && Occurrences(blocks[k], "END:VEVENT") == 1
    {
      EventBlockMarkers(entries[k], stamps[k], uids[k]);
    }
    OccurrencesFlatten(blocks, "BEGIN:VEVENT");
    OccurrencesFlatten(blocks, "END:VEVENT");
    WrapperMarkers();
    OccurrencesAppend(CalendarHeader + Flatten(blocks), [CalendarFooter], "BEGIN:VEVENT");
    OccurrencesAppend(CalendarHeader + Flatten(blocks), [CalendarFooter], "END:VEVENT");
    OccurrencesAppend(CalendarHeader, Flatten(blocks), "BEGIN:VEVENT");
    OccurrencesAppend(CalendarHeader, Flatten(blocks), "END:VEVENT");
  }

  /** Appending a block's text to the texts so far matches appending the block's lines to the lines so far. */
  lemma JoinStep(texts: seq<string>, text: string, lines: seq<string>, block: seq<string>)
    requires texts == [] <==> lines == []
    requires texts != [] ==> JoinLines(texts) == JoinLines(lines)
    requires block != [] && text == JoinLines(block)
    ensures JoinLines(texts + [text]) == JoinLines(lines + block)
  {
    if texts == [] {
      assert texts + [text] == [text] && lines + block == block;
    } else {
      JoinAppend(texts, [text]);
      JoinAppend(lines, block);
    }
  }

  /** Wrapping two bodies that join to the same text in the calendar header and footer gives the same text. */
  lemma WrapSameText(events: seq<string>, body: seq<string>)
    requires events == [] <==> body == []
    requires events != [] ==> JoinLines(events) == JoinLines(body)
    ensures JoinLines(CalendarHeader + events + [CalendarFooter]) == JoinLines(CalendarHeader + body + [CalendarFooter])
  {
    if events != [] {
      JoinAppend(CalendarHeader + events, [CalendarFooter]);
      JoinAppend(CalendarHeader, events);
      JoinAppend(CalendarHeader + body, [CalendarFooter]);
      JoinAppend(CalendarHeader, body);
    }
  }

  /**
   * The texts built for the first i entries join to the same text as the
   * lines of their blocks.
   */
  ghost predicate TextsMatchBlocks(texts: seq<string>, entries: seq<Event>, stamps: seq<DateTime>, uids: seq<string>, i: nat)
    requires |stamps| == |entries| && |uids| == |entries| && i <= |entries|
  {
    var lines := Flatten(Blocks(entries[..i], stamps[..i], uids[..i]));
    |texts| == i && (texts == [] <==> lines == []) && (texts != [] ==> JoinLines(texts) == JoinLines(lines))
  }

  lemma {:induction false} TextsMatchBlocksStep(texts: seq<string>, entries: seq<Event>, stamps: seq<DateTime>, uids: seq<string>, i: nat)
    requires |stamps| == |entries| && |uids| == |entries| && i < |entries|
    requires TextsMatchBlocks(texts, entries, stamps, uids, i)
    ensures TextsMatchBlocks(texts + [CreateIcsEvent(entries[i].fromDate, entries[i].toDate, entries[i].description,
                                                     entries[i].repeats, stamps[i], uids[i])],
                             entries, stamps, uids, i + 1)
  {
    var block := EventLinesOf(entries[i], stamps[i], uids[i]);
    var before := Blocks(entries[..i], stamps[..i], uids[..i]);
    BlocksSnoc(entries, stamps, uids, i);
    FlattenSnoc(before, block);
    JoinStep(texts, JoinLines(block), Flatten(before), block);
  }

  /**
   * generate_ics_content: serialise each entry to text in order, then join
   * the calendar header, the event texts and the footer with newlines. The
   * result is the flat list of document lines joined with newlines.
   */
  method GenerateIcsContent(entries: seq<Event>, stamps: seq<DateTime>, uids: seq<string>)
    returns (ics: string)
    requires |stamps| == |entries| && |uids| == |entries|
    ensures ics == JoinLines(DocumentLines(entries, stamps, uids))
  {
    var events: seq<string> := [];
    var i := 0;
    while i < |entries|
      invariant 0 <= i <= |entries|
      invariant TextsMatchBlocks(events, entries, stamps, uids, i)
    {
      var entry := entries[i];
      var event := CreateIcsEvent(entry.fromDate, entry.toDate, entry.description, entry.repeats, stamps[i], uids[i]);
      TextsMatchBlocksStep(events, entries, stamps, uids, i);
      events := events + [event];
      i := i + 1;
    }
    assert entries[..i] == entries && stamps[..i] == stamps && uids[..i] == uids;
    ics := JoinLines(CalendarHeader + events + [CalendarFooter]);
    WrapSameText(events, Flatten(Blocks(entries, stamps, uids)));
  }
  /** No newline inside a stamp: every character is a digit or the 'T'. */
  lemma CompactHasNoNewline(dt: DateTime)
    ensures '\n' !in Compact(dt)
  {
    var c := Compact(dt);
    forall k | 0 <= k < |c|
      ensures c[k] != '\n'
    {
      if k != 8 {
        assert IsDigit(c[k]);
      }
    }
  }

  lemma HeadNoNewlines(startDt: DateTime, endDt: DateTime, description: string, now: DateTime, uid: string)
    ensures NoNewlines(BlockHead(startDt, endDt, description, now, uid)) <==> '\n' !in description && '\n' !in uid
  {
    var head := BlockHead(startDt, endDt, description, now, uid);
    if '\n' in description {
      assert '\n' in head[5];
    } else if '\n' in uid {
      assert '\n' in head[2];
    } else {
      CompactHasNoNewline(now);
      CompactHasNoNewline(startDt);
      CompactHasNoNewline(endDt);
    }
  }

  /** A block gets no RRULE line exactly when there is no FREQ; otherwise one of the four rules. */
  lemma RruleLinesShape(repeats: string)
    ensures RruleLines(repeats) == [] <==> Frequency(repeats) == None
    ensures var r := RruleLines(repeats);
      r == [] || r == ["RRULE:FREQ=DAILY"] || r == ["RRULE:FREQ=WEEKLY"]
      || r == ["RRULE:FREQ=MONTHLY"] || r == ["RRULE:FREQ=YEARLY"]
  {
    FreqLinesShape(Frequency(repeats));
  }

  lemma FreqLinesShape(freq: Option<string>)
    requires freq.Some? ==> freq.value == "DAILY" || freq.value == "WEEKLY" || freq.value == "MONTHLY" || freq.value == "YEARLY"
    ensures FreqLines(freq) == [] <==> freq == None
    ensures var r := FreqLines(freq);
      r == [] || r == ["RRULE:FREQ=DAILY"] || r == ["RRULE:FREQ=WEEKLY"]
      || r == ["RRULE:FREQ=MONTHLY"] || r == ["RRULE:FREQ=YEARLY"]
  {
    if freq.Some? {
      var f := freq.value;
      if f == "DAILY" {
        assert "RRULE:FREQ=" + f == "RRULE:FREQ=DAILY";
      } else if f == "WEEKLY" {
        assert "RRULE:FREQ=" + f == "RRULE:FREQ=WEEKLY";
      } else if f == "MONTHLY" {
        assert "RRULE:FREQ=" + f == "RRULE:FREQ=MONTHLY";
      } else {
        assert "RRULE:FREQ=" + f == "RRULE:FREQ=YEARLY";
      }
    }
  }

  lemma RruleNoNewlines(repeats: string)
    ensures NoNewlines(RruleLines(repeats))
  {
    FreqLinesNoNewlines(Frequency(repeats));
  }

  /** A block's lines hold no newline exactly when its description and its UID hold none. */
  lemma EventLinesNoNewlines(e: Event, now: DateTime, uid: string)
    ensures NoNewlines(EventLinesOf(e, now, uid)) <==> '\n' !in e.description && '\n' !in uid
  {
    var head := BlockHead(e.fromDate, e.toDate, e.description, now, uid);
    var rrule := RruleLines(e.repeats);
    HeadNoNewlines(e.fromDate, e.toDate, e.description, now, uid);
    RruleNoNewlines(e.repeats);
    assert NoNewlines(["END:VEVENT"]);
    NoNewlinesAppend(head + rrule, ["END:VEVENT"]);
    NoNewlinesAppend(head, rrule);
  }

  /**
   * The text of one event splits back into its block's lines if and only if
   * its description and its UID contain no newline.
   */
  lemma CreateIcsEventReadsBack(e: Event, now: DateTime, uid: string)
    ensures SplitLines(CreateIcsEvent(e.fromDate, e.toDate, e.description, e.repeats, now, uid))
              == EventLinesOf(e, now, uid)
            <==> '\n' !in e.description && '\n' !in uid
  {
    var lines := EventLinesOf(e, now, uid);
    assert |lines| > 0;
    EventLinesNoNewlines(e, now, uid);
    SplitJoinIff(lines);
  }

  /** The flattened lines hold no newline exactly when no block's lines do. */
  lemma {:induction false} FlattenNoNewlines(blocks: seq<seq<string>>)
    ensures NoNewlines(Flatten(blocks)) <==> forall k :: 0 <= k < |blocks| ==> NoNewlines(blocks[k])
  {
    if blocks != [] {
      var n := |blocks| - 1;
      FlattenNoNewlines(blocks[..n]);
      var front := Flatten(blocks[..n]);
      assert Flatten(blocks) == front + blocks[n];
      NoNewlinesAppend(front, blocks[n]);
      assert forall k :: 0 <= k < n ==> blocks[..n][k] == blocks[k];
    }
  }

  /** The header and footer hold no newline, so the document holds one exactly when its body does. */
  lemma WrapperNoNewlines(body: seq<string>)
    ensures NoNewlines(CalendarHeader + body + [CalendarFooter]) <==> NoNewlines(body)
  {
    assert NoNewlines(CalendarHeader) by {
      forall k | 0 <= k < |CalendarHeader|
        ensures '\n' !in CalendarHeader[k]
      {
        assert k == 0 || k == 1 || k == 2 || k == 3;
      }
    }
    assert NoNewlines([CalendarFooter]);
    NoNewlinesAppend(CalendarHeader + body, [CalendarFooter]);
    NoNewlinesAppend(CalendarHeader, body);
  }

  lemma BodyNoNewlines(entries: seq<Event>, stamps: seq<DateTime>, uids: seq<string>)
    requires |stamps| == |entries| && |uids| == |entries|
    ensures NoNewlines(Flatten(Blocks(entries, stamps, uids)))
      <==> forall k :: 0 <= k < |entries| ==> '\n' !in entries[k].description && '\n' !in uids[k]
  {
    var blocks := Blocks(entries, stamps, uids);
    forall k | 0 <= k < |entries|
      ensures NoNewlines(blocks[k]) <==> '\n' !in entries[k].description && '\n' !in uids[k]
    {
      EventLinesNoNewlines(entries[k], stamps[k], uids[k]);
    }
    FlattenNoNewlines(blocks);
  }

  /** The document's lines hold no newline exactly when no description and no UID holds one. */
  lemma DocumentNoNewlines(entries: seq<Event>, stamps: seq<DateTime>, uids: seq<string>)
    requires |stamps| == |entries| && |uids| == |entries|
    ensures NoNewlines(DocumentLines(entries, stamps, uids))
      <==> forall k :: 0 <= k < |entries| ==> '\n' !in entries[k].description && '\n' !in uids[k]
  {
    BodyNoNewlines(entries, stamps, uids);
    WrapperNoNewlines(Flatten(Blocks(entries, stamps, uids)));
  }

  /**
   * The exported text splits back into the document's lines exactly when no
   * description and no UID holds a newline: the exporter escapes nothing, so
   * a newline in a description breaks its SUMMARY and DESCRIPTION lines apart.
   */
  lemma DocumentTextRoundTrip(entries: seq<Event>, stamps: seq<DateTime>, uids: seq<string>)
    requires |stamps| == |entries| && |uids| == |entries|
    ensures SplitLines(JoinLines(DocumentLines(entries, stamps, uids))) == DocumentLines(entries, stamps, uids)
      <==> forall k :: 0 <= k < |entries| ==> '\n' !in entries[k].description && '\n' !in uids[k]
  {
    DocumentNoNewlines(entries, stamps, uids);
    SplitJoinIff(DocumentLines(entries, stamps, uids));
  }

  /** A line with the clock reading or the random UID cut off; every other line as it is. */
  function Redact(line: string): (r: string)
    ensures r <= line
  {
    if "DTSTAMP:" <= line then "DTSTAMP:" else if "UID:" <= line then "UID:" else line
  }

  /** Each line redacted; a redacted line is a prefix of the line it came from. */
  function RedactAll(lines: seq<string>): (r: seq<string>)
    ensures |r| == |lines|
    ensures forall k :: 0 <= k < |lines| ==> r[k] <= lines[k]
  {
    seq(|lines|, k requires 0 <= k < |lines| => Redact(lines[k]))
  }

  lemma RedactAllAppend(a: seq<string>, b: seq<string>)
    ensures RedactAll(a + b) == RedactAll(a) + RedactAll(b)
  {
  }

  lemma HeadRedacted(startDt: DateTime, endDt: DateTime, description: string,
                     now1: DateTime, uid1: string, now2: DateTime, uid2: string)
    ensures RedactAll(BlockHead(startDt, endDt, description, now1, uid1))
         == RedactAll(BlockHead(startDt, endDt, description, now2, uid2))
  {
    var head1 := BlockHead(startDt, endDt, description, now1, uid1);
    var head2 := BlockHead(startDt, endDt, description, now2, uid2);
    assert Redact(head1[1]) == "DTSTAMP:" == Redact(head2[1]);
    assert Redact(head1[2]) == "UID:" == Redact(head2[2]) by {
      assert head1[2][0] == 'U' && head2[2][0] == 'U';
    }
  }

  /** Within one block, the clock reading and the UID show only in the DTSTAMP and UID lines. */
  lemma BlockRedacted(e: Event, now1: DateTime, uid1: string, now2: DateTime, uid2: string)
    ensures RedactAll(EventLinesOf(e, now1, uid1)) == RedactAll(EventLinesOf(e, now2, uid2))
  {
    var head1 := BlockHead(e.fromDate, e.toDate, e.description, now1, uid1);
    var head2 := BlockHead(e.fromDate, e.toDate, e.description, now2, uid2);
    var tail := RruleLines(e.repeats) + ["END:VEVENT"];
    HeadRedacted(e.fromDate, e.toDate, e.description, now1, uid1, now2, uid2);
    assert EventLinesOf(e, now1, uid1) == head1 + tail;
    assert EventLinesOf(e, now2, uid2) == head2 + tail;
    RedactAllAppend(head1, tail);
    RedactAllAppend(head2, tail);
  }

  lemma {:induction false} BodyRedacted(entries: seq<Event>, stamps1: seq<DateTime>, uids1: seq<string>,
                                       stamps2: seq<DateTime>, uids2: seq<string>)
    requires |stamps1| == |entries| && |uids1| == |entries| && |stamps2| == |entries| && |uids2| == |entries|
    ensures RedactAll(Flatten(Blocks(entries, stamps1, uids1))) == RedactAll(Flatten(Blocks(entries, stamps2, uids2)))
    decreases |entries|
  {
    if entries != [] {
      var n := |entries| - 1;
      BodyRedacted(entries[..n], stamps1[..n], uids1[..n], stamps2[..n], uids2[..n]);
      BlocksLast(entries, stamps1, uids1);
      BlocksLast(entries, stamps2, uids2);
      var front1 := Flatten(Blocks(entries[..n], stamps1[..n], uids1[..n]));
      var front2 := Flatten(Blocks(entries[..n], stamps2[..n], uids2[..n]));
      var block1 := EventLinesOf(entries[n], stamps1[n], uids1[n]);
      var block2 := EventLinesOf(entries[n], stamps2[n], uids2[n]);
      FlattenSnoc(Blocks(entries[..n], stamps1[..n], uids1[..n]), block1);
      FlattenSnoc(Blocks(entries[..n], stamps2[..n], uids2[..n]), block2);
      RedactAllAppend(front1, block1);
      RedactAllAppend(front2, block2);
      BlockRedacted(entries[n], stamps1[n], uids1[n], stamps2[n], uids2[n]);
    }
  }

  /**
   * Two exports of the same list differ only in the DTSTAMP and UID values:
   * with those cut off, the documents are equal line for line.
   */
  lemma ExportDeterministicUpToStampAndUid(entries: seq<Event>, stamps1: seq<DateTime>, uids1: seq<string>,
                                           stamps2: seq<DateTime>, uids2: seq<string>)
    requires |stamps1| == |entries| && |uids1| == |entries| && |stamps2| == |entries| && |uids2| == |entries|
    ensures RedactAll(DocumentLines(entries, stamps1, uids1)) == RedactAll(DocumentLines(entries, stamps2, uids2))
  {
    var body1 := Flatten(Blocks(entries, stamps1, uids1));
    var body2 := Flatten(Blocks(entries, stamps2, uids2));
    BodyRedacted(entries, stamps1, uids1, stamps2, uids2);
    RedactAllAppend(CalendarHeader + body1, [CalendarFooter]);
    RedactAllAppend(CalendarHeader, body1);
    RedactAllAppend(CalendarHeader + body2, [CalendarFooter]);
    RedactAllAppend(CalendarHeader, body2);
  }
}
