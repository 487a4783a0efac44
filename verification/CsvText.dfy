/** The collector's CSV rows (tactile_collect_real.cpp:201-224, 622-630 and 1270-1295), and a reader
    for section 2 of RFC 4180 to read them back with. */
module CsvText {
  import opened Basics

  predicate Special(c: char) { c == ',' || c == '"' || c == '\n' || c == '\r' }

  predicate Bare(s: string) { forall i :: 0 <= i < |s| ==> !Special(s[i]) }

  function Doubled(s: string): string {
    if s == "" then "" else (if s[0] == '"' then "\"\"" else [s[0]]) + Doubled(s[1..])
  }

  function Quoted(s: string): string {
    if Bare(s) then s else "\"" + Doubled(s) + "\""
  }

  lemma {:induction false} DoubledIsNoShorter(s: string)
    ensures |Doubled(s)| >= |s|
  {
    if s != "" { DoubledIsNoShorter(s[1..]); }
  }

  method CsvEscape(s: string) returns (out: string)
    ensures out == Quoted(s)
    ensures out == s <==> forall i :: 0 <= i < |s| ==> s[i] != ',' && s[i] != '"' && s[i] != '\n' && s[i] != '\r'
  {
    DoubledIsNoShorter(s);
    var needQuote := false;
    for i := 0 to |s|
      invariant !needQuote && forall k :: 0 <= k < i ==> !Special(s[k])
    {
      if Special(s[i]) {
        needQuote := true;
        break;
      }
    }
    if !needQuote {
      return s;
    }
    out := "\"";
    for i := 0 to |s|
      invariant out + Doubled(s[i..]) == "\"" + Doubled(s)
    {
      var piece := if s[i] == '"' then "\"\"" else [s[i]];
      assert s[i..][0] == s[i] && s[i..][1..] == s[i + 1..];
      assert out + (piece + Doubled(s[i + 1..])) == (out + piece) + Doubled(s[i + 1..]);
      out := out + piece;
    }
    assert s[|s|..] == "" && out + "" == out;
    out := out + "\"";
  }

  // ---------------------------------------------------------------- the reader

  datatype Mode = FieldStart | InBare | InQuotes | QuoteSeen

  datatype Parsed = Parsed(fields: seq<string>, rest: string)

  /** Reads one record up to its line break, or to the end of the text. The line break is CRLF, or a bare LF
      as well unless the reader is `strict`. `field` is the part of the current field already read,
      `fields` the finished ones. None: not a record. */
  function ReadRow(strict: bool, s: string, mode: Mode, field: string, fields: seq<string>): Option<Parsed> {
    if s == "" then
      (if mode.InQuotes? || (mode.FieldStart? && fields == []) then None else Some(Parsed(fields + [field], "")))
    else
      var c, t := s[0], s[1..];
      if mode.InQuotes? then
        if c == '"' then ReadRow(strict, t, QuoteSeen, field, fields)
        else ReadRow(strict, t, InQuotes, field + [c], fields)
      else if c == '\n' then (if strict then None else Some(Parsed(fields + [field], t)))
      else if c == '\r' then (if t != "" && t[0] == '\n' then Some(Parsed(fields + [field], t[1..])) else None)
      else if c == ',' then ReadRow(strict, t, FieldStart, "", fields + [field])
      else if c == '"' then
        (match mode
         case FieldStart => ReadRow(strict, t, InQuotes, "", fields)
         case QuoteSeen => ReadRow(strict, t, InQuotes, field + ['"'], fields)
         case _ => None)
      else if mode.QuoteSeen? then None
      else ReadRow(strict, t, InBare, field + [c], fields)
  }

  predicate LineEnd(next: string) { next == "\n" || next == "\r\n" }

  predicate Separator(next: string) { next == "," || LineEnd(next) }

  /** What the reader does once a cell is finished and its separator follows. */
  function Continued(strict: bool, next: string, rest: string, fields: seq<string>): Option<Parsed> {
    if next == "," then ReadRow(strict, rest, FieldStart, "", fields) else Ended(strict, next, fields, rest)
  }

  /** Only a strict reader minds which line break it is. */
  function Ended(strict: bool, end: string, fields: seq<string>, rest: string): Option<Parsed> {
    if strict && end == "\n" then None else Some(Parsed(fields, rest))
  }

  lemma SeparatorReads(strict: bool, next: string, rest: string, mode: Mode, field: string, fields: seq<string>)
    requires Separator(next) && !mode.InQuotes?
    ensures ReadRow(strict, next + rest, mode, field, fields) == Continued(strict, next, rest, fields + [field])
  {
    var all := next + rest;
    if |next| == 1 {
      assert all[0] == next[0] && all[1..] == rest;
    } else {
      assert all[0] == '\r' && all[1..][0] == '\n' && all[1..][1..] == rest;
    }
  }

  function Joined(cells: seq<string>): string
    requires cells != []
  {
    if |cells| == 1 then cells[0] else cells[0] + "," + Joined(cells[1..])
  }

  function Map(fields: seq<string>): (cells: seq<string>)
    ensures |cells| == |fields|
  {
    seq(|fields|, i requires 0 <= i < |fields| => Quoted(fields[i]))
  }

  lemma {:induction false} BareCellReads(strict: bool, done: string, s: string, next: string, rest: string,
                                         mode: Mode, fields: seq<string>)
    requires Bare(s) && Separator(next) && (mode.FieldStart? || mode.InBare?)
    ensures ReadRow(strict, s + (next + rest), mode, done, fields) == Continued(strict, next, rest, fields + [done + s])
    decreases |s|
  {
    var all := s + (next + rest);
    if s == "" {
      assert all == next + rest && done + s == done;
      SeparatorReads(strict, next, rest, mode, done, fields);
    } else {
      assert all[0] == s[0] && all[1..] == s[1..] + (next + rest);
      BareCellReads(strict, done + [s[0]], s[1..], next, rest, InBare, fields);
      assert (done + [s[0]]) + s[1..] == done + s;
    }
  }

  lemma OneQuotedReads(strict: bool, c: char, more: string, done: string, fields: seq<string>)
    ensures ReadRow(strict, (if c == '"' then "\"\"" else [c]) + more, InQuotes, done, fields)
         == ReadRow(strict, more, InQuotes, done + [c], fields)
  {
    if c == '"' {
      var all := "\"\"" + more;
      assert all[0] == '"' && all[1..][0] == '"' && all[1..][1..] == more;
    } else {
      assert ([c] + more)[1..] == more;
    }
  }

  lemma {:induction false} QuotedBodyReads(strict: bool, done: string, s: string, rest: string, fields: seq<string>)
    ensures ReadRow(strict, Doubled(s) + "\"" + rest, InQuotes, done, fields)
        == ReadRow(strict, rest, QuoteSeen, done + s, fields)
    decreases |s|
  {
    var all := Doubled(s) + "\"" + rest;
    if s == "" {
      assert all[0] == '"' && all[1..] == rest;
      assert done + s == done;
    } else {
      var more := Doubled(s[1..]) + "\"" + rest;
      QuotedBodyReads(strict, done + [s[0]], s[1..], rest, fields);
      assert (done + [s[0]]) + s[1..] == done + s;
      assert all == (if s[0] == '"' then "\"\"" else [s[0]]) + more;
      OneQuotedReads(strict, s[0], more, done, fields);
    }
  }

  /** A cell and the separator after it. */
  lemma CellReads(strict: bool, s: string, next: string, rest: string, fields: seq<string>)
    requires Separator(next)
    ensures ReadRow(strict, Quoted(s) + (next + rest), FieldStart, "", fields)
        == Continued(strict, next, rest, fields + [s])
  {
    assert "" + s == s;
    if Bare(s) {
      BareCellReads(strict, "", s, next, rest, FieldStart, fields);
    } else {
      QuotedCellReads(strict, s, next, rest, fields);
    }
  }

  lemma QuotedCellReads(strict: bool, s: string, next: string, rest: string, fields: seq<string>)
    requires Separator(next)
    ensures ReadRow(strict, "\"" + Doubled(s) + "\"" + (next + rest), FieldStart, "", fields)
        == Continued(strict, next, rest, fields + [s])
  {
    var tail := next + rest;
    var all := "\"" + Doubled(s) + "\"" + tail;
    assert all[0] == '"' && all[1..] == Doubled(s) + "\"" + tail;
    QuotedBodyReads(strict, "", s, tail, fields);
    assert "" + s == s;
    SeparatorReads(strict, next, rest, QuoteSeen, s, fields);
  }

  /** Escaped cells joined by commas read back as they were, whichever line break ends the row, except that a
      strict reader takes a row ended by LF for no record at all. */
  lemma {:induction false} CellsReadBack(strict: bool, fields: seq<string>, end: string, rest: string,
                                         before: seq<string>)
    requires fields != [] && LineEnd(end)
    ensures ReadRow(strict, Joined(Map(fields)) + (end + rest), FieldStart, "", before)
         == Ended(strict, end, before + fields, rest)
    decreases |fields|
  {
    var cells := Map(fields);
    if |fields| == 1 {
      CellReads(strict, fields[0], end, rest, before);
      assert fields == [fields[0]];
    } else {
      var more := Joined(cells[1..]) + (end + rest);
      assert cells[1..] == Map(fields[1..]);
      assert Joined(cells) + (end + rest) == cells[0] + ("," + more);
      CellReads(strict, fields[0], ",", more, before);
      CellsReadBack(strict, fields[1..], end, rest, before + [fields[0]]);
      assert (before + [fields[0]]) + fields[1..] == before + fields;
    }
  }

  // ---------------------------------------------------------------- the collector's record

  const HEADER: seq<string> := [
    "global_count", "record_id", "model", "sample_id", "sample_name", "stage",
    "label_dx", "label_dy", "label_dz", "label_rx", "label_ry", "label_rz",
    "target_x", "target_y", "target_z", "target_rx", "target_ry", "target_rz",
    "actual_x", "actual_y", "actual_z", "actual_rx", "actual_ry", "actual_rz",
    "mean_actual_x", "mean_actual_y", "mean_actual_z", "mean_actual_rx", "mean_actual_ry", "mean_actual_rz",
    "real_dx", "real_dy", "real_dz", "real_rx", "real_ry", "real_rz",
    "fx", "fy", "fz", "mx", "my", "mz", "contact_flag", "sensor_valid",
    "tcp_enable", "tcp_ok", "tcp_message", "tcp_elapsed_ms", "tcp_left_frames", "tcp_right_frames",
    "tcp_pair_frames", "tcp_sample_dir", "tcp_ack_raw"]

  /** The four columns that go through the escaper; the others are printed numbers. */
  predicate TextColumn(i: nat) { i == 4 || i == 46 || i == 51 || i == 52 }

  function RecordCells(fields: seq<string>): (cells: seq<string>)
    ensures |cells| == |fields|
  {
    seq(|fields|, i requires 0 <= i < |fields| => if TextColumn(i) then Quoted(fields[i]) else fields[i])
  }

  /** A record reads back as the very fields it was written from, one for each column of the header,
      whatever the sample name, message, directory and raw acknowledgement contain. The writer ends a
      row with LF, which a strict reader does not take for the end of a record; with CRLF it would. */
  lemma RecordReadsBack(strict: bool, fields: seq<string>, end: string, rest: string)
    requires |fields| == |HEADER| && LineEnd(end)
    requires forall i :: 0 <= i < |fields| && !TextColumn(i) ==> Bare(fields[i])
    ensures |HEADER| == 53
    ensures ReadRow(strict, Joined(RecordCells(fields)) + (end + rest), FieldStart, "", [])
        == Ended(strict, end, fields, rest)
  {
    assert RecordCells(fields) == Map(fields);
    CellsReadBack(strict, fields, end, rest, []);
    assert [] + fields == fields;
  }
}
