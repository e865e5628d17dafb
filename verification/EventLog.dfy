/** The durable event table, its resume query, and the stream that clients follow across reconnects. */
module EventLog {

  /** A row of the event table; the type and payload of the event are of no interest here, only whether it ends
      the stream. */
  datatype EventRow = EventRow(runId: string, seqNo: int, body: string, terminal: bool)

  /** max(seq) over the rows of a run, 0 when it has none. */
  function MaxSeq(rows: seq<EventRow>, runId: string): (m: int)
    ensures forall i :: 0 <= i < |rows| && rows[i].runId == runId ==> rows[i].seqNo <= m
    ensures m == 0 || exists i :: 0 <= i < |rows| && rows[i].runId == runId && rows[i].seqNo == m
  {
    if rows == [] then 0
    else
      var last := rows[|rows| - 1];
      var m := MaxSeq(rows[..|rows| - 1], runId);
      if last.runId == runId && last.seqNo > m then last.seqNo else m
  }

  /** The rows of one run, in the order they were inserted. */
  function RunLog(rows: seq<EventRow>, runId: string): (log: seq<EventRow>)
    ensures |log| <= |rows|
    ensures forall i :: 0 <= i < |log| ==> log[i].runId == runId
  {
    if rows == [] then []
    else
      var last := rows[|rows| - 1];
      RunLog(rows[..|rows| - 1], runId) + (if last.runId == runId then [last] else [])
  }

  /** Sequence numbers of every run are 1, 2, 3, ... in insertion order. */
  ghost predicate Numbered(rows: seq<EventRow>) {
    forall runId: string, i :: 0 <= i < |RunLog(rows, runId)| ==> RunLog(rows, runId)[i].seqNo == i + 1
  }

  lemma {:induction false} MaxIsLength(rows: seq<EventRow>, runId: string)
    requires forall i :: 0 <= i < |RunLog(rows, runId)| ==> RunLog(rows, runId)[i].seqNo == i + 1
    ensures MaxSeq(rows, runId) == |RunLog(rows, runId)|
  {
    if rows != [] {
      var rest := rows[..|rows| - 1];
      var log, restLog := RunLog(rows, runId), RunLog(rest, runId);
      forall i | 0 <= i < |restLog| ensures restLog[i].seqNo == i + 1 {
        assert restLog[i] == log[i];
      }
      MaxIsLength(rest, runId);
      if rows[|rows| - 1].runId == runId {
        assert log[|log| - 1] == rows[|rows| - 1];
      }
    }
  }

  lemma RunLogAppend(rows: seq<EventRow>, e: EventRow, runId: string)
    ensures RunLog(rows + [e], runId) == RunLog(rows, runId) + (if e.runId == runId then [e] else [])
  {
    assert (rows + [e])[..|rows|] == rows;
  }

  /** The event table; every handler of every run appends to it. */
  class EventTable {
    var rows: seq<EventRow>

    constructor ()
      ensures rows == [] && Numbered(rows)
    {
      rows := [];
    }

    /** append_run_event: the next number of the run is its maximum plus one. Other runs are not touched, and the
        run's log grows by exactly this event, numbered by its place. */
    method Append(runId: string, body: string, terminal: bool) returns (e: EventRow)
      requires Numbered(rows)
      modifies this
      ensures rows == old(rows) + [e] && Numbered(rows)
      ensures e.runId == runId && e.body == body && e.terminal == terminal
      ensures e.seqNo == |RunLog(old(rows), runId)| + 1
      ensures RunLog(rows, runId) == RunLog(old(rows), runId) + [e]
      ensures forall other: string :: other != runId ==> RunLog(rows, other) == RunLog(old(rows), other)
    {
      MaxIsLength(rows, runId);
      e := EventRow(runId, MaxSeq(rows, runId) + 1, body, terminal);
      forall r: string ensures RunLog(rows + [e], r) == RunLog(rows, r) + (if e.runId == r then [e] else []) {
        RunLogAppend(rows, e, r);
      }
      rows := rows + [e];
    }
  }

  // ----- the resume query -----

  function Matching(rows: seq<EventRow>, runId: string, after: int): seq<EventRow> {
    if rows == [] then []
    else
      var last := rows[|rows| - 1];
      Matching(rows[..|rows| - 1], runId, after) + (if last.runId == runId && last.seqNo > after then [last] else [])
  }

  /** ORDER BY seq ASC. */
  function InsertBySeq(e: EventRow, sorted: seq<EventRow>): seq<EventRow> {
    if sorted == [] then [e]
    else if sorted[|sorted| - 1].seqNo <= e.seqNo then sorted + [e]
    else InsertBySeq(e, sorted[..|sorted| - 1]) + [sorted[|sorted| - 1]]
  }

  function SortBySeq(rows: seq<EventRow>): seq<EventRow> {
    if rows == [] then [] else InsertBySeq(rows[|rows| - 1], SortBySeq(rows[..|rows| - 1]))
  }

  /** list_run_events: the events of the run after the cursor, in order of their number, at most limit of them. */
  function ListRunEvents(rows: seq<EventRow>, runId: string, after: int, limit: nat): seq<EventRow> {
    Limited(SortBySeq(Matching(rows, runId, after)), limit)
  }

  /** LIMIT. */
  function Limited(rows: seq<EventRow>, limit: nat): seq<EventRow> {
    if |rows| <= limit then rows else rows[..limit]
  }

  predicate Ascending(s: seq<EventRow>) {
    forall i, j :: 0 <= i < j < |s| ==> s[i].seqNo <= s[j].seqNo
  }

  lemma {:induction false} SortedStays(s: seq<EventRow>)
    requires Ascending(s)
    ensures SortBySeq(s) == s
  {
    if s != [] {
      var rest := s[..|s| - 1];
      SortedStays(rest);
      assert s == rest + [s[|s| - 1]];
    }
  }

  function Min(a: nat, b: nat): nat { if a < b then a else b }

  lemma SuffixGrows(log: seq<EventRow>, e: EventRow, after: nat)
    requires e.seqNo == |log| + 1
    ensures (log + [e])[Min(after, |log| + 1)..]
         == log[Min(after, |log|)..] + (if e.seqNo > after then [e] else [])
  {
  }

  lemma {:induction false} MatchingIsSuffix(rows: seq<EventRow>, runId: string, after: nat)
    requires forall i :: 0 <= i < |RunLog(rows, runId)| ==> RunLog(rows, runId)[i].seqNo == i + 1
    ensures Matching(rows, runId, after) == RunLog(rows, runId)[Min(after, |RunLog(rows, runId)|)..]
  {
    if rows != [] {
      var rest := rows[..|rows| - 1];
      var log, restLog := RunLog(rows, runId), RunLog(rest, runId);
      forall i | 0 <= i < |restLog| ensures restLog[i].seqNo == i + 1 {
        assert restLog[i] == log[i];
      }
      MatchingIsSuffix(rest, runId, after);
      var last := rows[|rows| - 1];
      if last.runId == runId {
        assert log == restLog + [last] && log[|restLog|] == last;
        SuffixGrows(restLog, last, after);
      } else {
        assert log == restLog;
      }
    }
  }

  lemma TailAscending(log: seq<EventRow>, from: nat)
    requires from <= |log| && forall i :: 0 <= i < |log| ==> log[i].seqNo == i + 1
    ensures Ascending(log[from..])
  {
    var tail := log[from..];
    assert forall i :: 0 <= i < |tail| ==> tail[i] == log[i + from];
  }

  lemma SortedQuery(rows: seq<EventRow>, runId: string, after: nat)
    requires Numbered(rows)
    ensures var log := RunLog(rows, runId);
            SortBySeq(Matching(rows, runId, after)) == log[Min(after, |log|)..]
  {
    var log := RunLog(rows, runId);
    assert forall i :: 0 <= i < |log| ==> log[i].seqNo == i + 1;
    MatchingIsSuffix(rows, runId, after);
    TailAscending(log, Min(after, |log|));
    SortedStays(log[Min(after, |log|)..]);
  }

  /** The resume query returns the slice of the run's log right after the cursor. */
  lemma QueryIsSlice(rows: seq<EventRow>, runId: string, after: nat, limit: nat)
    requires Numbered(rows)
    ensures var log := RunLog(rows, runId);
            var from := Min(after, |log|);
            ListRunEvents(rows, runId, after, limit) == log[from..Min(from + limit, |log|)]
  {
    var log := RunLog(rows, runId);
    SortedQuery(rows, runId, after);
    SliceOfTail(log, Min(after, |log|), limit);
  }

  lemma SliceOfTail(log: seq<EventRow>, from: nat, limit: nat)
    requires from <= |log|
    ensures Limited(log[from..], limit) == log[from..Min(from + limit, |log|)]
  {
  }

  // ----- cursors on the wire -----

  predicate IsDigit(c: char) { '0' <= c <= '9' }

  function Decimal(n: nat): string {
    if n < 10 then ['0' + n as char] else Decimal(n / 10) + ['0' + (n % 10) as char]
  }

  predicate AllDigits(s: string) {
    forall i :: 0 <= i < |s| ==> IsDigit(s[i])
  }

  function DigitsValue(s: string): nat
    requires AllDigits(s)
  {
    if s == [] then 0
    else
      var last := s[|s| - 1];
      DigitsValue(s[..|s| - 1]) * 10 + (last as int - '0' as int)
  }

  /** _parse_cursor: a decimal number, and 0 for anything else. */
  function ParseCursor(s: string): nat {
    if s != [] && AllDigits(s) then DigitsValue(s) else 0
  }

  /** The id a client sends back is read as the number that was sent to it. */
  lemma {:induction false} CursorRoundTrip(n: nat)
    ensures Decimal(n) != [] && AllDigits(Decimal(n)) && ParseCursor(Decimal(n)) == n
  {
    var s := Decimal(n);
    if n < 10 {
      assert s[..0] == [];
      assert DigitsValue(s[..0]) == 0;
    } else {
      CursorRoundTrip(n / 10);
      assert s[..|s| - 1] == Decimal(n / 10);
    }
  }

  // ----- a client over polls, disconnects and reconnects -----

  /** A client and its connection. The server holds a cursor while connected; the client holds the id of the last
      event it got, as text, and everything it got. */
  datatype Client = Client(connected: bool, cursor: nat, lastId: string, got: seq<EventRow>)

  datatype Step =
    | Appended(e: EventRow)           // some handler appends to the table
    | Poll(limit: nat, delivered: nat) // one turn of the stream loop; the connection may drop after some events
    | Disconnect
    | Connect(query: string)           // last_event_id in the URL wins over the Last-Event-ID header

  datatype World = World(rows: seq<EventRow>, client: Client)

  /** Resume from the query parameter, else from the header the client sends, else from the start. */
  function Resume(c: Client, query: string): Client {
    c.(connected := true, cursor := ParseCursor(if query != "" then query else c.lastId))
  }

  /** The URL carries no cursor of its own, or one that says where the client is. */
  predicate FreshQuery(c: Client, query: string) {
    query == "" || ParseCursor(query) == |c.got|
  }

  ghost predicate CanStep(w: World, runId: string, a: Step) {
    match a
    case Appended(e) => e.seqNo == MaxSeq(w.rows, e.runId) + 1
    case Poll(limit, delivered) =>
      w.client.connected && delivered <= |ListRunEvents(w.rows, runId, w.client.cursor, limit)|
    case Disconnect => true
    case Connect(_) => !w.client.connected
  }

  function Delivered(c: Client, batch: seq<EventRow>): Client {
    if batch == [] then c
    else
      var last := batch[|batch| - 1].seqNo;
      c.(got := c.got + batch, lastId := if last >= 0 then Decimal(last) else "",
         cursor := if last >= 0 then last else 0)
  }

  /** After a poll the stream goes on only if the whole batch got through. */
  ghost function DoStep(w: World, runId: string, a: Step): World
    requires CanStep(w, runId, a)
  {
    match a
    case Appended(e) => w.(rows := w.rows + [e])
    case Poll(limit, delivered) =>
      var batch := ListRunEvents(w.rows, runId, w.client.cursor, limit);
      var c := Delivered(w.client, batch[..delivered]);
      w.(client := if delivered < |batch| then c.(connected := false) else c)
    case Disconnect => w.(client := w.client.(connected := false))
    case Connect(query) => w.(client := Resume(w.client, query))
  }

  /** What the client has is the log of the run up to the id it remembers, no event missing, none twice, in order. */
  ghost predicate InSync(w: World, runId: string) {
    var c := w.client;
    && Numbered(w.rows)
    && |c.got| <= |RunLog(w.rows, runId)|
    && c.got == RunLog(w.rows, runId)[..|c.got|]
    && ParseCursor(c.lastId) == |c.got|
    && (c.connected ==> c.cursor == |c.got|)
  }

  lemma AppendNumbered(rows: seq<EventRow>, e: EventRow)
    requires Numbered(rows) && e.seqNo == MaxSeq(rows, e.runId) + 1
    ensures Numbered(rows + [e])
  {
    MaxIsLength(rows, e.runId);
    forall r: string, i | 0 <= i < |RunLog(rows + [e], r)| ensures RunLog(rows + [e], r)[i].seqNo == i + 1 {
      RunLogAppend(rows, e, r);
    }
  }

  /** What a poll brings, as a slice of the log behind the connection's cursor. */
  ghost predicate Brings(w: World, runId: string, delivered: nat, after: World) {
    var log, from := RunLog(w.rows, runId), w.client.cursor;
    && after.rows == w.rows
    && if delivered == 0 then
         after.client.got == w.client.got && after.client.lastId == w.client.lastId && after.client.cursor == from
       else
         && from + delivered <= |log|
         && after.client.got == w.client.got + log[from..from + delivered]
         && after.client.lastId == Decimal(from + delivered) && after.client.cursor == from + delivered
  }

  lemma SliceStart(log: seq<EventRow>, from: nat, to: nat, delivered: nat)
    requires from <= to <= |log| && delivered <= to - from
    ensures log[from..to][..delivered] == log[from..from + delivered]
  {
  }

  lemma DeliversSlice(c: Client, log: seq<EventRow>, delivered: nat)
    requires 0 < delivered && c.cursor + delivered <= |log| && forall i :: 0 <= i < |log| ==> log[i].seqNo == i + 1
    ensures var c' := Delivered(c, log[c.cursor..c.cursor + delivered]);
            && c'.got == c.got + log[c.cursor..c.cursor + delivered]
            && c'.lastId == Decimal(c.cursor + delivered) && c'.cursor == c.cursor + delivered
  {
    var batch := log[c.cursor..c.cursor + delivered];
    assert batch[|batch| - 1] == log[c.cursor + delivered - 1];
  }

  lemma BatchSlice(w: World, runId: string, limit: nat, delivered: nat)
    requires Numbered(w.rows) && CanStep(w, runId, Poll(limit, delivered))
    ensures var log, from := RunLog(w.rows, runId), w.client.cursor;
            var batch := ListRunEvents(w.rows, runId, from, limit);
            && (delivered > 0 ==> from + delivered <= |log| && batch[..delivered] == log[from..from + delivered])
            && (delivered == 0 ==> batch[..delivered] == [])
  {
    var log, from := RunLog(w.rows, runId), w.client.cursor;
    QueryIsSlice(w.rows, runId, from, limit);
    if delivered > 0 {
      SliceStart(log, from, Min(from + limit, |log|), delivered);
    }
  }

  lemma PollBrings(w: World, runId: string, limit: nat, delivered: nat)
    requires Numbered(w.rows) && CanStep(w, runId, Poll(limit, delivered))
    ensures Brings(w, runId, delivered, DoStep(w, runId, Poll(limit, delivered)))
  {
    BatchSlice(w, runId, limit, delivered);
    if delivered > 0 {
      DeliversSlice(w.client, RunLog(w.rows, runId), delivered);
    }
  }

  lemma BringsInSync(w: World, runId: string, delivered: nat, after: World)
    requires InSync(w, runId) && w.client.connected && Brings(w, runId, delivered, after)
    ensures InSync(after, runId) && |after.client.got| == |w.client.got| + delivered
  {
    var log, n := RunLog(w.rows, runId), |w.client.got|;
    if delivered > 0 {
      assert log[..n] + log[n..n + delivered] == log[..n + delivered];
      CursorRoundTrip(n + delivered);
    }
  }

  lemma PollInSync(w: World, runId: string, limit: nat, delivered: nat)
    requires InSync(w, runId) && CanStep(w, runId, Poll(limit, delivered))
    ensures InSync(DoStep(w, runId, Poll(limit, delivered)), runId)
    ensures |DoStep(w, runId, Poll(limit, delivered)).client.got| == |w.client.got| + delivered
  {
    PollBrings(w, runId, limit, delivered);
    BringsInSync(w, runId, delivered, DoStep(w, runId, Poll(limit, delivered)));
  }

  lemma AppendInSync(w: World, runId: string, e: EventRow)
    requires InSync(w, runId) && CanStep(w, runId, Appended(e))
    ensures InSync(DoStep(w, runId, Appended(e)), runId)
  {
    AppendNumbered(w.rows, e);
    RunLogAppend(w.rows, e, runId);
  }

  lemma StepInSync(w: World, runId: string, a: Step)
    requires InSync(w, runId) && CanStep(w, runId, a) && (a.Connect? ==> FreshQuery(w.client, a.query))
    ensures InSync(DoStep(w, runId, a), runId)
  {
    match a
    case Appended(e) => AppendInSync(w, runId, e);
    case Poll(limit, delivered) => PollInSync(w, runId, limit, delivered);
    case _ =>
  }

  ghost predicate ValidSteps(w: World, runId: string, steps: seq<Step>)
    decreases |steps|
  {
    steps == [] || (CanStep(w, runId, steps[0]) && ValidSteps(DoStep(w, runId, steps[0]), runId, steps[1..]))
  }

  ghost function AfterSteps(w: World, runId: string, steps: seq<Step>): World
    requires ValidSteps(w, runId, steps)
    decreases |steps|
  {
    if steps == [] then w else AfterSteps(DoStep(w, runId, steps[0]), runId, steps[1..])
  }

  // ----- when the client holds what it should -----

  /** What the client holds is a beginning of the run's log: contiguous from the first event, in order, without
      duplicates. */
  ghost predicate HoldsPrefix(w: World, runId: string) {
    |w.client.got| <= |RunLog(w.rows, runId)| && w.client.got == RunLog(w.rows, runId)[..|w.client.got|]
  }

  predicate DrawnFrom(log: seq<EventRow>, got: seq<EventRow>) {
    forall i :: 0 <= i < |got| ==> 1 <= got[i].seqNo <= |log| && got[i] == log[got[i].seqNo - 1]
  }

  /** Whatever it holds are events of the run. */
  ghost predicate Genuine(w: World, runId: string) {
    Numbered(w.rows) && DrawnFrom(RunLog(w.rows, runId), w.client.got)
  }

  predicate InOrder(got: seq<EventRow>) {
    forall i :: 0 <= i < |got| ==> got[i].seqNo == i + 1
  }

  lemma PrefixIsOrder(w: World, runId: string)
    requires Genuine(w, runId)
    ensures HoldsPrefix(w, runId) <==> InOrder(w.client.got)
  {
    var log, got := RunLog(w.rows, runId), w.client.got;
    if HoldsPrefix(w, runId) {
      forall i | 0 <= i < |got| ensures got[i].seqNo == i + 1 {
        assert got[i] == log[i];
      }
    }
    if InOrder(got) {
      assert got == [] || got[|got| - 1].seqNo == |got|;
      assert forall i :: 0 <= i < |got| ==> got[i] == log[i];
    }
  }

  lemma SliceOrder(log: seq<EventRow>, got: seq<EventRow>, from: nat, to: nat)
    requires from <= to <= |log| && DrawnFrom(log, got) && forall i :: 0 <= i < |log| ==> log[i].seqNo == i + 1
    ensures DrawnFrom(log, got + log[from..to])
    ensures InOrder(got + log[from..to]) <==> InOrder(got) && (from < to ==> from == |got|)
  {
    var batch := log[from..to];
    assert forall k :: 0 <= k < |batch| ==> batch[k] == log[from + k];
    OrderGrows(got, batch, from);
  }

  lemma BringsOrder(w: World, runId: string, delivered: nat, after: World)
    requires Genuine(w, runId) && Brings(w, runId, delivered, after)
    ensures Genuine(after, runId)
    ensures InOrder(after.client.got) <==>
            InOrder(w.client.got) && (delivered > 0 ==> w.client.cursor == |w.client.got|)
  {
    if delivered > 0 {
      SliceOrder(RunLog(w.rows, runId), w.client.got, w.client.cursor, w.client.cursor + delivered);
    }
  }

  /** A poll that delivers something keeps the order exactly when the connection stands where the client is. */
  lemma PollOrder(w: World, runId: string, limit: nat, delivered: nat)
    requires Genuine(w, runId) && CanStep(w, runId, Poll(limit, delivered))
    ensures var w' := DoStep(w, runId, Poll(limit, delivered));
            && Genuine(w', runId)
            && (InOrder(w'.client.got) <==>
                  InOrder(w.client.got) && (delivered > 0 ==> w.client.cursor == |w.client.got|))
  {
    PollBrings(w, runId, limit, delivered);
    BringsOrder(w, runId, delivered, DoStep(w, runId, Poll(limit, delivered)));
  }

  lemma OrderGrows(got: seq<EventRow>, batch: seq<EventRow>, cursor: nat)
    requires forall k :: 0 <= k < |batch| ==> batch[k].seqNo == cursor + k + 1
    ensures InOrder(got + batch) <==> InOrder(got) && (batch != [] ==> cursor == |got|)
  {
    var all := got + batch;
    assert forall i :: 0 <= i < |got| ==> all[i] == got[i];
    assert forall k :: 0 <= k < |batch| ==> all[|got| + k] == batch[k];
    if InOrder(all) {
      assert forall i :: 0 <= i < |got| ==> all[i].seqNo == i + 1;
      assert batch != [] ==> all[|got|].seqNo == |got| + 1;
    }
  }

  lemma AppendGenuine(w: World, runId: string, e: EventRow)
    requires Genuine(w, runId) && CanStep(w, runId, Appended(e))
    ensures Genuine(DoStep(w, runId, Appended(e)), runId)
  {
    AppendNumbered(w.rows, e);
    RunLogAppend(w.rows, e, runId);
  }

  /** Whenever an event arrives, the connection stands where the client is. */
  ghost predicate InStep(w: World, runId: string, steps: seq<Step>)
    requires ValidSteps(w, runId, steps)
    decreases |steps|
  {
    steps == [] ||
    (&& (steps[0].Poll? && steps[0].delivered > 0 ==> w.client.cursor == |w.client.got|)
     && InStep(DoStep(w, runId, steps[0]), runId, steps[1..]))
  }

  lemma {:induction false} StepsOrder(w: World, runId: string, steps: seq<Step>)
    requires Genuine(w, runId) && ValidSteps(w, runId, steps)
    ensures Genuine(AfterSteps(w, runId, steps), runId)
    ensures InOrder(AfterSteps(w, runId, steps).client.got) <==> InOrder(w.client.got) && InStep(w, runId, steps)
    decreases |steps|
  {
    if steps != [] {
      var a := steps[0];
      match a {
        case Poll(limit, delivered) => PollOrder(w, runId, limit, delivered);
        case Appended(e) => AppendGenuine(w, runId, e);
        case _ =>
      }
      StepsOrder(DoStep(w, runId, a), runId, steps[1..]);
    }
  }

  const START := World([], Client(false, 0, "", []))

  /** Whatever appends, limited polls, dropped connections and reconnects happen in whatever order, and whatever cursors
      the URLs carry, the client holds a beginning of the log exactly if every event reached it over a connection that
      stood where the client was. */
  lemma ClientHoldsPrefixExactly(runId: string, steps: seq<Step>)
    requires ValidSteps(START, runId, steps)
    ensures HoldsPrefix(AfterSteps(START, runId, steps), runId) <==> InStep(START, runId, steps)
  {
    StepsOrder(START, runId, steps);
    PrefixIsOrder(AfterSteps(START, runId, steps), runId);
  }

  /** No URL carries a cursor other than the client's own. */
  ghost predicate FreshUrls(w: World, runId: string, steps: seq<Step>)
    requires ValidSteps(w, runId, steps)
    decreases |steps|
  {
    steps == [] ||
    (&& (steps[0].Connect? ==> FreshQuery(w.client, steps[0].query))
     && FreshUrls(DoStep(w, runId, steps[0]), runId, steps[1..]))
  }

  lemma {:induction false} StepsInSync(w: World, runId: string, steps: seq<Step>)
    requires InSync(w, runId) && ValidSteps(w, runId, steps) && FreshUrls(w, runId, steps)
    ensures InSync(AfterSteps(w, runId, steps), runId)
    decreases |steps|
  {
    if steps != [] {
      StepInSync(w, runId, steps[0]);
      StepsInSync(DoStep(w, runId, steps[0]), runId, steps[1..]);
    }
  }

  /** A client that resumes by the header, or by a URL with its own cursor, always holds a beginning of the log. */
  lemma ClientHoldsPrefix(runId: string, steps: seq<Step>)
    requires ValidSteps(START, runId, steps) && FreshUrls(START, runId, steps)
    ensures HoldsPrefix(AfterSteps(START, runId, steps), runId)
  {
    StepsInSync(START, runId, steps);
  }

  /** A client that was in step connects again, and events arrive: it goes on with a beginning of the log exactly if the
      URL carries no cursor or the client's own; any other repeats or loses events. */
  lemma ResumeExactly(w: World, runId: string, query: string, limit: nat, delivered: nat)
    requires InSync(w, runId) && !w.client.connected && delivered > 0
    requires CanStep(DoStep(w, runId, Connect(query)), runId, Poll(limit, delivered))
    ensures HoldsPrefix(DoStep(DoStep(w, runId, Connect(query)), runId, Poll(limit, delivered)), runId) <==>
            FreshQuery(w.client, query)
  {
    var c := DoStep(w, runId, Connect(query));
    PollOrder(c, runId, limit, delivered);
    PrefixIsOrder(DoStep(c, runId, Poll(limit, delivered)), runId);
    assert InOrder(w.client.got);
  }

  /** A poll that gets through brings the client min(limit, what is left) further. */
  lemma PollProgress(w: World, runId: string, limit: nat)
    requires InSync(w, runId) && w.client.connected
    ensures var n := |ListRunEvents(w.rows, runId, w.client.cursor, limit)|;
            && CanStep(w, runId, Poll(limit, n))
            && |DoStep(w, runId, Poll(limit, n)).client.got|
               == Min(|w.client.got| + limit, |RunLog(w.rows, runId)|)
            && DoStep(w, runId, Poll(limit, n)).client.connected
  {
    QueryIsSlice(w.rows, runId, w.client.cursor, limit);
    PollInSync(w, runId, limit, |ListRunEvents(w.rows, runId, w.client.cursor, limit)|);
  }

  // ----- a run with a stale URL -----

  function First(runId: string): EventRow { EventRow(runId, 1, "first", false) }

  function Second(runId: string): EventRow { EventRow(runId, 2, "second", false) }

  /** Two events; the client connects with a cursor of 0 in its URL and gets both; the connection drops; the browser
      repeats the URL, and the next poll brings the first event again. */
  function StaleUrl(runId: string): seq<Step> {
    [Appended(First(runId))] + ([Appended(Second(runId))]
    + ([Connect("0")] + ([Poll(10, 2)] + ([Disconnect] + ([Connect("0")] + [Poll(10, 1)])))))
  }

  /** These steps lead from one state to another. */
  ghost predicate Reaches(w: World, runId: string, steps: seq<Step>, got: seq<EventRow>) {
    ValidSteps(w, runId, steps) && AfterSteps(w, runId, steps).client.got == got
  }

  lemma StepReaches(w: World, runId: string, a: Step, rest: seq<Step>, got: seq<EventRow>)
    requires CanStep(w, runId, a) && Reaches(DoStep(w, runId, a), runId, rest, got)
    ensures Reaches(w, runId, [a] + rest, got)
  {
    assert ([a] + rest)[1..] == rest;
  }

  lemma TwoRows(runId: string)
    ensures var rows := [First(runId), Second(runId)];
            Numbered(rows) && RunLog(rows, runId) == rows
    ensures MaxSeq([], runId) == 0 && MaxSeq([First(runId)], runId) == 1
  {
    var one, rows := [First(runId)], [First(runId), Second(runId)];
    assert MaxSeq([], runId) == 0;
    assert one[..0] == [] && [] + [First(runId)] == one && one + [Second(runId)] == rows;
    AppendNumbered([], First(runId));
    RunLogAppend([], First(runId), runId);
    MaxIsLength(one, runId);
    AppendNumbered(one, Second(runId));
    RunLogAppend(one, Second(runId), runId);
  }

  lemma ZeroCursor()
    ensures ParseCursor("0") == 0
  {
    CursorRoundTrip(0);
    assert Decimal(0) == "0";
  }

  /** A connection at 0 to the two events brings the first of them. */
  lemma PollFromStart(w: World, runId: string, delivered: nat)
    requires w.rows == [First(runId), Second(runId)] && w.client.connected && w.client.cursor == 0 && delivered <= 2
    ensures CanStep(w, runId, Poll(10, delivered))
    ensures DoStep(w, runId, Poll(10, delivered)).rows == w.rows
    ensures DoStep(w, runId, Poll(10, delivered)).client.got == w.client.got + w.rows[..delivered]
  {
    TwoRows(runId);
    QueryIsSlice(w.rows, runId, 0, 10);
    assert |ListRunEvents(w.rows, runId, 0, 10)| == 2;
    PollBrings(w, runId, 10, delivered);
    assert w.rows[0..delivered] == w.rows[..delivered] && w.client.got + [] == w.client.got;
  }

  lemma StaleUrlRepeats(runId: string)
    ensures Reaches(START, runId, StaleUrl(runId), [First(runId), Second(runId), First(runId)])
  {
    var e, f := First(runId), Second(runId);
    var got := [e, f, e];
    TwoRows(runId);
    ZeroCursor();
    var w1 := DoStep(START, runId, Appended(e));
    assert w1.rows == [e];
    var w2 := DoStep(w1, runId, Appended(f));
    assert w2.rows == [e, f];
    var w3 := DoStep(w2, runId, Connect("0"));
    PollFromStart(w3, runId, 2);
    var w4 := DoStep(w3, runId, Poll(10, 2));
    var w5 := DoStep(w4, runId, Disconnect);
    var w6 := DoStep(w5, runId, Connect("0"));
    PollFromStart(w6, runId, 1);
    assert [] + [e, f][..2] == [e, f] && [e, f] + [e, f][..1] == got;
    var rest := [Poll(10, 1)];
    StepReaches(w6, runId, Poll(10, 1), [], got);
    assert [Poll(10, 1)] + [] == rest;
    StepReaches(w5, runId, Connect("0"), rest, got);
    StepReaches(w4, runId, Disconnect, [Connect("0")] + rest, got);
    StepReaches(w3, runId, Poll(10, 2), [Disconnect] + ([Connect("0")] + rest), got);
    StepReaches(w2, runId, Connect("0"), [Poll(10, 2)] + ([Disconnect] + ([Connect("0")] + rest)), got);
    StepReaches(w1, runId, Appended(f),
                [Connect("0")] + ([Poll(10, 2)] + ([Disconnect] + ([Connect("0")] + rest))), got);
    StepReaches(START, runId, Appended(e),
                [Appended(f)] + ([Connect("0")] + ([Poll(10, 2)] + ([Disconnect] + ([Connect("0")] + rest)))), got);
  }
}
