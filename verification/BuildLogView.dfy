/**
 The live log window of src/lib/buildLogView.ts: streamed chunks of one agent are coalesced into
 one row, rows and streamed text are bounded.
 */
module BuildLogView {
  import opened Wrappers

  /** `rest` stands for the payload fields that are only passed on. */
  datatype Payload = Payload(message: Option<string>, text: Option<string>, rest: string)

  datatype LogEntry = LogEntry(agent: string, kind: string, payload: Option<Payload>)

  const MAX_VISIBLE_LOGS := 200
  const MAX_STREAM_TEXT := 4096
  const STREAMING := "Streaming output…"

  /** `slice(-n)` for a positive n. */
  function LastOf<T>(s: seq<T>, n: nat): (r: seq<T>)
    ensures |r| <= n && |r| <= |s| && (|s| <= n ==> r == s)
  {
    if |s| <= n then s else s[|s| - n..]
  }

  function TextOf(e: LogEntry): string {
    if e.payload.Some? && e.payload.value.text.Some? then e.payload.value.text.value else ""
  }

  /** The incoming payload with the streaming message and the given text. */
  function Streamed(incoming: LogEntry, text: string): LogEntry {
    var rest := if incoming.payload.Some? then incoming.payload.value.rest else "";
    incoming.(payload := Some(Payload(Some(STREAMING), Some(text), rest)))
  }

  predicate Coalesces(previous: seq<LogEntry>, incoming: LogEntry) {
    incoming.kind == "chunk" && previous != [] &&
    previous[|previous| - 1].kind == "chunk" && previous[|previous| - 1].agent == incoming.agent
  }

  function AppendVisibleBuildLog(previous: seq<LogEntry>, incoming: LogEntry): (r: seq<LogEntry>)
    ensures 0 < |r| <= MAX_VISIBLE_LOGS
    ensures r[|r| - 1].kind == incoming.kind && r[|r| - 1].agent == incoming.agent
  {
    if incoming.kind == "chunk" then
      var coalesce := Coalesces(previous, incoming);
      var text := if coalesce then TextOf(previous[|previous| - 1]) + TextOf(incoming) else TextOf(incoming);
      var entry := Streamed(incoming, LastOf(text, MAX_STREAM_TEXT));
      LastOf((if coalesce then previous[..|previous| - 1] else previous) + [entry], MAX_VISIBLE_LOGS)
    else LastOf(previous + [incoming], MAX_VISIBLE_LOGS)
  }

  function Visible(events: seq<LogEntry>): seq<LogEntry> {
    if events == [] then [] else AppendVisibleBuildLog(Visible(events[..|events| - 1]), events[|events| - 1])
  }

  // ----- the log without limits -----

  function AppendUnlimited(previous: seq<LogEntry>, incoming: LogEntry): seq<LogEntry> {
    if incoming.kind != "chunk" then previous + [incoming]
    else if Coalesces(previous, incoming) then
      previous[..|previous| - 1] + [Streamed(incoming, TextOf(previous[|previous| - 1]) + TextOf(incoming))]
    else previous + [Streamed(incoming, TextOf(incoming))]
  }

  function Unlimited(events: seq<LogEntry>): seq<LogEntry> {
    if events == [] then [] else AppendUnlimited(Unlimited(events[..|events| - 1]), events[|events| - 1])
  }

  /** A streamed row cut to the last characters of its text; other rows are left alone. */
  function Cut(e: LogEntry): LogEntry {
    if e.kind == "chunk" && e.payload.Some? then
      e.(payload := Some(e.payload.value.(text := Some(LastOf(TextOf(e), MAX_STREAM_TEXT)))))
    else e
  }

  function CutAll(rows: seq<LogEntry>): (r: seq<LogEntry>)
    ensures |r| == |rows| && forall i :: 0 <= i < |r| ==> r[i] == Cut(rows[i])
  {
    seq(|rows|, i requires 0 <= i < |rows| => Cut(rows[i]))
  }

  // ----- the window refines the log without limits -----

  lemma LastOfAppend<T>(s: seq<T>, e: T, n: nat)
    requires n > 0
    ensures LastOf(LastOf(s, n) + [e], n) == LastOf(s + [e], n)
  {
  }

  lemma LastOfReplace<T>(s: seq<T>, e: T, n: nat)
    requires n > 0 && s != []
    ensures LastOf(s, n) != [] && LastOf(s, n)[|LastOf(s, n)| - 1] == s[|s| - 1]
    ensures LastOf(LastOf(s, n)[..|LastOf(s, n)| - 1] + [e], n) == LastOf(s[..|s| - 1] + [e], n)
  {
  }

  /** Cutting before adding text changes nothing once the result is cut. */
  lemma CutTwice(a: string, b: string, n: nat)
    ensures LastOf(LastOf(a, n) + b, n) == LastOf(a + b, n)
  {
  }

  lemma {:induction false} UnlimitedRows(events: seq<LogEntry>)
    ensures forall i :: 0 <= i < |Unlimited(events)| && Unlimited(events)[i].kind == "chunk" ==>
              Unlimited(events)[i].payload.Some?
  {
    if events != [] {
      UnlimitedRows(events[..|events| - 1]);
    }
  }

  lemma CutAppend(rows: seq<LogEntry>, e: LogEntry)
    ensures CutAll(rows + [e]) == CutAll(rows) + [Cut(e)]
    ensures rows != [] ==> CutAll(rows[..|rows| - 1]) == CutAll(rows)[..|rows| - 1]
  {
  }

  lemma AppendRefines(rows: seq<LogEntry>, incoming: LogEntry)
    requires forall i :: 0 <= i < |rows| && rows[i].kind == "chunk" ==> rows[i].payload.Some?
    ensures AppendVisibleBuildLog(LastOf(CutAll(rows), MAX_VISIBLE_LOGS), incoming) ==
            LastOf(CutAll(AppendUnlimited(rows, incoming)), MAX_VISIBLE_LOGS)
  {
    hide LastOf, CutAll;
    var window := LastOf(CutAll(rows), MAX_VISIBLE_LOGS);
    if rows == [] {
      assert CutAll(rows) == [] && window == [];
    } else {
      LastOfReplace(CutAll(rows), Cut(incoming), MAX_VISIBLE_LOGS);
    }
    assert Coalesces(window, incoming) <==> Coalesces(rows, incoming);
    if Coalesces(rows, incoming) {
      var last := rows[|rows| - 1];
      var e := Streamed(incoming, TextOf(last) + TextOf(incoming));
      CutTwice(TextOf(last), TextOf(incoming), MAX_STREAM_TEXT);
      CutAppend(rows[..|rows| - 1], e);
      CutAppend(rows, e);
      LastOfReplace(CutAll(rows), Cut(e), MAX_VISIBLE_LOGS);
    } else {
      var e := if incoming.kind == "chunk" then Streamed(incoming, TextOf(incoming)) else incoming;
      CutAppend(rows, e);
      LastOfAppend(CutAll(rows), Cut(e), MAX_VISIBLE_LOGS);
    }
  }

  /**
   For any events the visible list is the last 200 rows of the log coalesced without limits, with
   each streamed row cut to its last 4096 characters.
   */
  lemma {:induction false} WindowRefinesLog(events: seq<LogEntry>)
    ensures Visible(events) == LastOf(CutAll(Unlimited(events)), MAX_VISIBLE_LOGS)
  {
    hide AppendVisibleBuildLog, AppendUnlimited;
    if events != [] {
      var n := |events| - 1;
      WindowRefinesLog(events[..n]);
      UnlimitedRows(events[..n]);
      AppendRefines(Unlimited(events[..n]), events[n]);
    }
  }

  // ----- what the log without limits holds -----

  /** The streamed text of the rows one after the other. */
  function StreamText(rows: seq<LogEntry>): string {
    if rows == [] then ""
    else
      var last := rows[|rows| - 1];
      StreamText(rows[..|rows| - 1]) + if last.kind == "chunk" then TextOf(last) else ""
  }

  function OtherRows(rows: seq<LogEntry>): seq<LogEntry> {
    if rows == [] then []
    else
      var last := rows[|rows| - 1];
      OtherRows(rows[..|rows| - 1]) + if last.kind == "chunk" then [] else [last]
  }

  lemma StreamTextAppend(rows: seq<LogEntry>, e: LogEntry)
    ensures StreamText(rows + [e]) == StreamText(rows) + if e.kind == "chunk" then TextOf(e) else ""
    ensures OtherRows(rows + [e]) == OtherRows(rows) + if e.kind == "chunk" then [] else [e]
  {
    assert (rows + [e])[..|rows|] == rows;
  }

  /** No two neighbouring rows stream for the same agent. */
  predicate NeighboursApart(rows: seq<LogEntry>) {
    forall i :: 0 < i < |rows| && rows[i - 1].kind == "chunk" && rows[i].kind == "chunk" ==>
      rows[i - 1].agent != rows[i].agent
  }

  lemma NothingToCoalesce()
    ensures NeighboursApart([])
  {
  }

  /**
   Coalescing loses and reorders nothing: the rows carry all streamed text in order, all other
   events in order, and no two neighbouring rows stream for the same agent.
   */
  lemma {:induction false} CoalescingKeepsAll(events: seq<LogEntry>)
    ensures var rows := Unlimited(events);
            StreamText(rows) == StreamText(events) && OtherRows(rows) == OtherRows(events) && NeighboursApart(rows)
  {
    hide StreamText, OtherRows, AppendUnlimited, NeighboursApart;
    if events == [] {
      NothingToCoalesce();
    } else {
      var n := |events| - 1;
      CoalescingKeepsAll(events[..n]);
      AppendKeepsAll(Unlimited(events[..n]), events[n]);
      AppendApart(Unlimited(events[..n]), events[n]);
      StreamTextAppend(events[..n], events[n]);
      assert events == events[..n] + [events[n]];
    }
  }

  lemma TextOfStreamed(e: LogEntry, text: string)
    ensures TextOf(Streamed(e, text)) == text
  {
  }

  lemma AppendApart(rows: seq<LogEntry>, e: LogEntry)
    requires NeighboursApart(rows)
    ensures NeighboursApart(AppendUnlimited(rows, e))
  {
    hide TextOf;
  }

  lemma AppendKeepsAll(rows: seq<LogEntry>, e: LogEntry)
    ensures var after := AppendUnlimited(rows, e);
            && StreamText(after) == StreamText(rows) + (if e.kind == "chunk" then TextOf(e) else "")
            && OtherRows(after) == OtherRows(rows) + (if e.kind == "chunk" then [] else [e])
  {
    hide StreamText, OtherRows, TextOf;
    TextOfStreamed(e, TextOf(e));
    if Coalesces(rows, e) {
      var front, last := rows[..|rows| - 1], rows[|rows| - 1];
      var joined := Streamed(e, TextOf(last) + TextOf(e));
      TextOfStreamed(e, TextOf(last) + TextOf(e));
      StreamTextAppend(front, last);
      StreamTextAppend(front, joined);
      assert rows == front + [last];
      assert StreamText(front) + (TextOf(last) + TextOf(e)) == (StreamText(front) + TextOf(last)) + TextOf(e);
      assert OtherRows(front) + [] == OtherRows(front);
    } else {
      StreamTextAppend(rows, if e.kind == "chunk" then Streamed(e, TextOf(e)) else e);
    }
  }

  // ----- what a row is made of -----

  /** The texts of chunks one after the other. */
  function TextsOf(run: seq<LogEntry>): string {
    if run == [] then "" else TextsOf(run[..|run| - 1]) + TextOf(run[|run| - 1])
  }

  /** A row is one event of another kind, or several chunks of one agent with their texts joined. */
  predicate RowOf(run: seq<LogEntry>, row: LogEntry) {
    run != [] &&
    if run[0].kind != "chunk" then run == [row]
    else
      var last := run[|run| - 1].payload;
      && (forall k :: 0 <= k < |run| ==> run[k].kind == "chunk" && run[k].agent == row.agent)
      && row.kind == "chunk" && row.payload.Some?
      && row.payload.value.message == Some("Streaming output…") && row.payload.value.text == Some(TextsOf(run))
      && row.payload.value.rest == if last.Some? then last.value.rest else ""
  }

  /** The events fall into consecutive runs, one for each row. */
  ghost predicate RowsOf(events: seq<LogEntry>, rows: seq<LogEntry>)
    decreases |rows|
  {
    if rows == [] then events == []
    else
      exists n: nat :: n < |events| && RowOf(events[n..], rows[|rows| - 1])
                       && RowsOf(events[..n], rows[..|rows| - 1])
  }

  lemma RunGrows(run: seq<LogEntry>, row: LogEntry, e: LogEntry)
    requires RowOf(run, row) && row.kind == "chunk" && e.kind == "chunk" && row.agent == e.agent
    ensures RowOf(run + [e], Streamed(e, TextOf(row) + TextOf(e)))
  {
    assert (run + [e])[..|run|] == run;
    assert run[0].kind == "chunk";
  }

  lemma RunBegins(e: LogEntry)
    ensures RowOf([e], if e.kind == "chunk" then Streamed(e, TextOf(e)) else e)
  {
    assert [e][..0] == [];
    assert "" + TextOf(e) == TextOf(e);
  }

  lemma RowsGrow(events: seq<LogEntry>, rows: seq<LogEntry>, e: LogEntry)
    requires RowsOf(events, rows)
    ensures RowsOf(events + [e], AppendUnlimited(rows, e))
  {
    hide RowOf, TextOf, Streamed;
    var all, after := events + [e], AppendUnlimited(rows, e);
    if Coalesces(rows, e) {
      var last := rows[|rows| - 1];
      var n: nat :| n < |events| && RowOf(events[n..], last) && RowsOf(events[..n], rows[..|rows| - 1]);
      RunGrows(events[n..], last, e);
      assert all[n..] == events[n..] + [e] && all[..n] == events[..n];
      assert after[..|after| - 1] == rows[..|rows| - 1];
    } else {
      RunBegins(e);
      assert all[|events|..] == [e] && all[..|events|] == events;
      assert after[..|after| - 1] == rows;
    }
  }

  /** The log without limits: one row for each longest run of chunks of one agent, and for each other event. */
  lemma {:induction false} RowsAreRuns(events: seq<LogEntry>)
    ensures RowsOf(events, Unlimited(events)) && NeighboursApart(Unlimited(events))
  {
    hide RowsOf, AppendUnlimited;
    if events == [] {
      NothingToCoalesce();
      NoRows();
    } else {
      var n := |events| - 1;
      RowsAreRuns(events[..n]);
      RowsGrow(events[..n], Unlimited(events[..n]), events[n]);
      AppendApart(Unlimited(events[..n]), events[n]);
      assert events == events[..n] + [events[n]];
    }
  }

  lemma NoRows()
    ensures RowsOf([], [])
  {
  }

  // ----- what one event does to the window -----

  /** The end of a sequence, as long as it may be. */
  predicate EndOf<T(==)>(s: seq<T>, n: nat, r: seq<T>) {
    |r| <= |s| && s[|s| - |r|..] == r && |r| == if |s| <= n then |s| else n
  }

  lemma LastOfIsEnd<T>(s: seq<T>, n: nat)
    ensures EndOf(s, n, LastOf(s, n))
  {
  }

  /** The text the previous row already streamed, when the incoming chunk goes on with it. */
  function TextBefore(previous: seq<LogEntry>, incoming: LogEntry): string {
    if previous != [] && previous[|previous| - 1].kind == "chunk" && previous[|previous| - 1].agent == incoming.agent
    then TextOf(previous[|previous| - 1]) else ""
  }

  /** The row of an event: the event itself, or a chunk with the end of the text streamed so far. */
  predicate Shown(before: string, incoming: LogEntry, row: LogEntry) {
    if incoming.kind != "chunk" then row == incoming
    else
      && row.agent == incoming.agent && row.kind == "chunk" && row.payload.Some?
      && row.payload.value.message == Some("Streaming output…") && row.payload.value.text.Some?
      && EndOf(before + TextOf(incoming), 4096, row.payload.value.text.value)
      && row.payload.value.rest == if incoming.payload.Some? then incoming.payload.value.rest else ""
  }

  /** The rows in front of the new one: all, but for one that the new one continues. */
  predicate InFront(previous: seq<LogEntry>, incoming: LogEntry, kept: seq<LogEntry>) {
    if incoming.kind == "chunk" && previous != [] && previous[|previous| - 1].kind == "chunk"
       && previous[|previous| - 1].agent == incoming.agent
    then previous == kept + [previous[|previous| - 1]]
    else previous == kept
  }

  lemma StreamedShows(before: string, incoming: LogEntry)
    requires incoming.kind == "chunk"
    ensures Shown(before, incoming, Streamed(incoming, LastOf(before + TextOf(incoming), MAX_STREAM_TEXT)))
  {
    hide EndOf, LastOf, TextOf;
    LastOfIsEnd(before + TextOf(incoming), MAX_STREAM_TEXT);
  }

  lemma AppendIs(previous: seq<LogEntry>, incoming: LogEntry) returns (kept: seq<LogEntry>, row: LogEntry)
    ensures AppendVisibleBuildLog(previous, incoming) == LastOf(kept + [row], MAX_VISIBLE_LOGS)
    ensures InFront(previous, incoming, kept)
    ensures row == if incoming.kind == "chunk"
                   then Streamed(incoming, LastOf(TextBefore(previous, incoming) + TextOf(incoming), MAX_STREAM_TEXT))
                   else incoming
  {
    hide LastOf, TextOf, Streamed;
    var coalesce := Coalesces(previous, incoming);
    var text := TextBefore(previous, incoming) + TextOf(incoming);
    kept := if coalesce then previous[..|previous| - 1] else previous;
    assert !coalesce && incoming.kind == "chunk" ==> text == TextOf(incoming);
    row := if incoming.kind == "chunk" then Streamed(incoming, LastOf(text, MAX_STREAM_TEXT)) else incoming;
  }

  /** One event appends or replaces one row, and the latest 200 rows stay. */
  lemma AppendedRow(previous: seq<LogEntry>, incoming: LogEntry) returns (kept: seq<LogEntry>, row: LogEntry)
    ensures InFront(previous, incoming, kept) && Shown(TextBefore(previous, incoming), incoming, row)
    ensures EndOf(kept + [row], 200, AppendVisibleBuildLog(previous, incoming))
  {
    hide EndOf, LastOf, TextOf, TextBefore, AppendVisibleBuildLog, InFront, Streamed;
    kept, row := AppendIs(previous, incoming);
    LastOfIsEnd(kept + [row], MAX_VISIBLE_LOGS);
    if incoming.kind == "chunk" {
      StreamedShows(TextBefore(previous, incoming), incoming);
    }
  }
}
