/**
 * The session's event list and its page cursor: adding a validated event,
 * deleting one by position, clearing all, and paging through them.
 */
module EventStore {
  import opened Wrappers
  import opened Text
  import opened DateTimes
  import opened Pagination

  /** One stored row of the events table. */
  datatype Event = Event(fromDate: DateTime, toDate: DateTime, repeats: string, description: string)

  /** Why an add was refused: the two messages the form can show. */
  datatype AddError =
    | EmptyDescription   // "Please enter a description."
    | EndBeforeStart     // "End date/time must be after start date/time."

  /** Python's IndexError from list.pop. */
  datatype IndexError = IndexError

  /**
   * What holds of every stored event: date-times the pickers can produce, a
   * trimmed, non-empty description and an end not before the start.
   */
  predicate WellFormed(e: Event) {
    && Valid(e.fromDate) && Valid(e.toDate)
    && e.description != [] && Strip(e.description) == e.description && !Before(e.toDate, e.fromDate)
  }

  /**
   * The checks of the add callback, in its order: first a description that is
   * not all whitespace, then an end at or after the start. On success the
   * event carries the given date-times and recurrence and the stripped description.
   */
  function NewEvent(from: DateTime, to: DateTime, repeats: string, description: string): (r: Result<Event, AddError>)
    ensures r == Failure(EmptyDescription) <==> AllSpace(description)
    ensures r == Failure(EndBeforeStart) <==> !AllSpace(description) && Before(to, from)
    ensures r.Success? <==> !AllSpace(description) && (to == from || Before(from, to))
    ensures r.Success? ==> r.value == Event(from, to, repeats, Strip(description))
    ensures r.Success? ==> (WellFormed(r.value) <==> Valid(from) && Valid(to))
  {
    BeforeIsStrictTotalOrder(from, to, from);
    if Strip(description) == [] then Failure(EmptyDescription)
    else if Before(to, from) then Failure(EndBeforeStart)
    else
      StripIdempotent(description);
      Success(Event(from, to, repeats, Strip(description)))
  }

  /** A zero-length event is accepted: the check is end >= start. */
  lemma ZeroLengthEventAccepted(at: DateTime, repeats: string, description: string)
    requires !AllSpace(description)
    ensures NewEvent(at, at, repeats, description) == Success(Event(at, at, repeats, Strip(description)))
  {
  }

  function RemovedAt<T>(s: seq<T>, i: nat): (r: seq<T>)
    requires i < |s|
    ensures |r| == |s| - 1
    ensures forall k :: 0 <= k < |r| ==> r[k] == (if k < i then s[k] else s[k + 1])
    ensures multiset(r) + multiset{s[i]} == multiset(s)
  {
    assert s == s[..i] + [s[i]] + s[i + 1..];
    s[..i] + s[i + 1..]
  }

  /** The session state: the list of entries and the current page of the table. */
  class Store {
    var entries: seq<Event>
    var page: nat

    ghost predicate Valid()
      reads this
    {
      forall k :: 0 <= k < |entries| ==> WellFormed(entries[k])
    }

    /** A fresh session: no entries, first page. */
    constructor ()
      ensures Valid() && entries == [] && page == 0
    {
      entries := [];
      page := 0;
    }

    /**
     * The add callback: the date and time pickers, which only yield real
     * calendar dates and times of day, are combined, then the event
     * is validated and, when valid, appended; on refusal nothing changes.
     */
    method Add(fromDate: Date, fromTime: Time, toDate: Date, toTime: Time, repeats: string, description: string)
      returns (outcome: Outcome<AddError>)
      requires Valid()
      requires ValidDate(fromDate) && ValidTime(fromTime) && ValidDate(toDate) && ValidTime(toTime)
      modifies this`entries
      ensures Valid()
      ensures var r := NewEvent(DateTime(fromDate, fromTime), DateTime(toDate, toTime), repeats, description);
        match r
        case Success(e) => outcome == Pass && entries == old(entries) + [e]
        case Failure(err) => outcome == Fail(err) && entries == old(entries)
    {
      var fromDateTime := DateTime(fromDate, fromTime);
      var toDateTime := DateTime(toDate, toTime);
      if Strip(description) != [] {
        if !Before(toDateTime, fromDateTime) {
          var e := Event(fromDateTime, toDateTime, repeats, Strip(description));
          assert WellFormed(e) by { StripIdempotent(description); }
          entries := entries + [e];
          outcome := Pass;
        } else {
          outcome := Fail(EndBeforeStart);
        }
      } else {
        outcome := Fail(EmptyDescription);
      }
    }

    /**
     * The delete button of a row: pop the entry at its absolute index and pull
     * the cursor back when it now points past the last page. An index outside
     * the list fails as list.pop does, changing nothing.
     */
    method RemoveAt(actualIndex: nat, rows: nat) returns (outcome: Outcome<IndexError>)
      requires Valid() && rows > 0
      modifies this
      ensures Valid()
      ensures actualIndex < |old(entries)| ==>
        outcome == Pass && entries == RemovedAt(old(entries), actualIndex)
        && page == PageAfterDelete(old(page), |entries|, rows)
      ensures actualIndex >= |old(entries)| ==>
        outcome == Fail(IndexError) && entries == old(entries) && page == old(page)
      ensures old(page) < TotalPages(|old(entries)|, rows) ==>
        (entries == [] ==> page == 0) && (entries != [] ==> page < TotalPages(|entries|, rows))
    {
      if actualIndex >= |entries| {
        outcome := Fail(IndexError);
        return;
      }
      ghost var before := entries;
      entries := RemovedAt(entries, actualIndex);
      assert forall k :: 0 <= k < |entries| ==> entries[k] in before;
      if entries == [] {
        page := 0;
      } else if page > (|entries| - 1) / rows {
        page := if page - 1 > 0 then page - 1 else 0;
      }
      if old(page) < TotalPages(|before|, rows) {
        DeleteKeepsPageInRange(old(page), |entries|, rows);
      }
      outcome := Pass;
    }

    /** The clear-all button. */
    method Clear()
      modifies this
      ensures Valid() && entries == [] && page == 0
    {
      entries := [];
      page := 0;
    }

    /**
     * Rendering the table for a non-empty list: clamp the cursor to the last
     * page, then compute the slice [startIdx, endIdx) of the entries shown.
     */
    method ShowPage(rows: nat) returns (startIdx: nat, endIdx: nat, shown: seq<Event>)
      requires entries != [] && rows > 0
      modifies this`page
      ensures page == ClampPage(old(page), TotalPages(|entries|, rows))
      ensures old(page) < TotalPages(|entries|, rows) ==> page == old(page)
      ensures page < TotalPages(|entries|, rows)
      ensures startIdx == page * rows && startIdx < endIdx <= |entries| && endIdx - startIdx <= rows
      ensures endIdx == PageEnd(page, rows, |entries|)
      ensures shown == entries[startIdx..endIdx] == Visible(entries, page, rows)
    {
      var totalEntries := |entries|;
      var totalPages := (totalEntries - 1) / rows + 1;
      ClampInRange(page, totalEntries, rows);
      if page >= totalPages {
        page := if totalPages - 1 > 0 then totalPages - 1 else 0;
      }
      WindowNonEmpty(page, totalEntries, rows);
      startIdx := page * rows;
      endIdx := if startIdx + rows < totalEntries then startIdx + rows else totalEntries;
      shown := entries[startIdx..endIdx];
    }

    /** The Previous button, disabled on the first page. */
    method PreviousPage()
      modifies this`page
      ensures page == if old(page) == 0 then 0 else old(page) - 1
    {
      if page != 0 {
        page := page - 1;
      }
    }

    /** The Next button, disabled on the last page; it never leaves the page range. */
    method NextPage(rows: nat)
      requires entries != [] && rows > 0
      modifies this`page
      ensures page == if old(page) >= TotalPages(|entries|, rows) - 1 then old(page) else old(page) + 1
      ensures old(page) < TotalPages(|entries|, rows) ==> page < TotalPages(|entries|, rows)
    {
      var totalPages := (|entries| - 1) / rows + 1;
      if !(page >= totalPages - 1) {
        page := page + 1;
      }
    }
  }
}
