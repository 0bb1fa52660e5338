/** The turbidity sensor's acquisition: serial lines `time_ms,Voff,Von,Vdiff`
    become rows, in arrival order, and an acquisition without a single row
    fails with "No data received". */
module SensorAcquisition {
  import opened Wrappers
  import Text

  /** One sample: time in milliseconds and the three photodiode voltages. */
  datatype Row = Row(timeMs: real, voff: real, von: real, vdiff: real)

  const NoData: string := "No data received"
  const Header: string := "time_ms"

  /** `t_ms, voff, von, vdiff = map(float, line.split(","))`: exactly four
      fields, each a float; any other line raises `ValueError`. */
  function ParseRow(line: string, parseReal: string -> Option<real>): (r: Option<Row>)
    ensures var fields := Text.Split(line, ',');
      r.Some? <==> |fields| == 4 && forall k :: 0 <= k < 4 ==> parseReal(fields[k]).Some?
    ensures var fields := Text.Split(line, ',');
      r.Some? ==>
        && Some(r.value.timeMs) == parseReal(fields[0]) && Some(r.value.voff) == parseReal(fields[1])
        && Some(r.value.von) == parseReal(fields[2]) && Some(r.value.vdiff) == parseReal(fields[3])
  {
    var fields := Text.Split(line, ',');
    if |fields| != 4 then None
    else match (parseReal(fields[0]), parseReal(fields[1]), parseReal(fields[2]), parseReal(fields[3]))
      case (Some(t), Some(off), Some(on), Some(diff)) => Some(Row(t, off, on, diff))
      case _ => None
  }

  /** The filter of one acquisition loop pass: blank lines are skipped, and
      in the two stand-alone sensor windows so are lines starting with
      `time_ms`; the rest become a row when they parse. */
  function Accept(line: string, parseReal: string -> Option<real>, skipHeader: bool): (r: Option<Row>)
    ensures line == [] ==> r.None?
    ensures skipHeader && Text.StartsWith(line, Header) ==> r.None?
    ensures r.Some? ==> r == ParseRow(line, parseReal)
    ensures line != [] && !skipHeader ==> r == ParseRow(line, parseReal)
  {
    if line == [] || (skipHeader && Text.StartsWith(line, Header)) then None
    else ParseRow(line, parseReal)
  }

  /** The rows of the lines read, in the order they arrived. */
  function Rows(lines: seq<string>, parseReal: string -> Option<real>, skipHeader: bool): (rows: seq<Row>)
    ensures |rows| <= |lines|
  {
    if lines == [] then []
    else
      var last := Accept(lines[|lines| - 1], parseReal, skipHeader);
      Rows(lines[..|lines| - 1], parseReal, skipHeader) + (if last.Some? then [last.value] else [])
  }

  /** Rows keep arrival order: reading `a` then `b` gives the rows of `a`
      followed by the rows of `b`. */
  lemma {:induction false} RowsAppend(a: seq<string>, b: seq<string>, parseReal: string -> Option<real>, skipHeader: bool)
    ensures Rows(a + b, parseReal, skipHeader) == Rows(a, parseReal, skipHeader) + Rows(b, parseReal, skipHeader)
  {
    if b != [] {
      var n := |b| - 1;
      assert (a + b)[..|a + b| - 1] == a + b[..n];
      RowsAppend(a, b[..n], parseReal, skipHeader);
    } else {
      assert a + b == a;
    }
  }

  /** A line of four separator-free float fields is read as exactly that row. */
  lemma ReadsRow(t: string, off: string, on: string, diff: string, row: Row,
                 parseReal: string -> Option<real>, skipHeader: bool)
    requires ',' !in t && ',' !in off && ',' !in on && ',' !in diff
    requires parseReal(t) == Some(row.timeMs) && parseReal(off) == Some(row.voff)
    requires parseReal(on) == Some(row.von) && parseReal(diff) == Some(row.vdiff)
    requires !skipHeader || !Text.StartsWith(t + "," + off + "," + on + "," + diff, Header)
    ensures Accept(t + "," + off + "," + on + "," + diff, parseReal, skipHeader) == Some(row)
  {
    var parts := [t, off, on, diff];
    Text.SplitJoin(parts, ',');
    assert parts[1..] == [off, on, diff] && parts[2..] == [on, diff] && parts[3..] == [diff];
    assert Text.Join([on, diff], ',') == on + "," + diff;
    assert Text.Join([off, on, diff], ',') == off + "," + on + "," + diff;
    assert Text.Join(parts, ',') == t + "," + off + "," + on + "," + diff;
  }

  /** Skipping `time_ms` lines changes nothing when no text starting with
      `time_ms` parses as a float, as with Python's `float`: the header line
      is dropped by the parse anyway. */
  lemma HeaderRuleRedundant(line: string, parseReal: string -> Option<real>)
    requires forall s :: Text.StartsWith(s, Header) ==> parseReal(s).None?
    ensures Accept(line, parseReal, true) == Accept(line, parseReal, false)
  {
    if line != [] && Text.StartsWith(line, Header) {
      Text.SplitKeepsPrefix(line, Header, ',');
      assert parseReal(Text.Split(line, ',')[0]).None?;
    }
  }

  /** The acquired table: the rows and the derived `time_s` column. */
  datatype Frame = Frame(rows: seq<Row>, timeS: seq<real>)

  /** `df["time_s"] = df["time_ms"] / 1000.0`. */
  function Seconds(rows: seq<Row>): (ts: seq<real>)
    ensures |ts| == |rows|
    ensures forall k :: 0 <= k < |rows| ==> ts[k] * 1000.0 == rows[k].timeMs
  {
    seq(|rows|, k requires 0 <= k < |rows| => rows[k].timeMs / 1000.0)
  }

  /** Milliseconds convert to seconds sample by sample, keeping their order. */
  lemma SecondsScale(rows: seq<Row>, i: nat, j: nat)
    requires i < |rows| && j < |rows|
    ensures Seconds(rows)[j] - Seconds(rows)[i] == (rows[j].timeMs - rows[i].timeMs) / 1000.0
    ensures rows[i].timeMs <= rows[j].timeMs <==> Seconds(rows)[i] <= Seconds(rows)[j]
  {
  }

  /** `acquire_data` over the lines read during the acquisition window. */
  method AcquireData(lines: seq<string>, parseReal: string -> Option<real>, skipHeader: bool)
    returns (r: Result<Frame>)
    ensures var rows := Rows(lines, parseReal, skipHeader);
      r == if rows == [] then Err(NoData) else Ok(Frame(rows, Seconds(rows)))
  {
    var rows: seq<Row> := [];
    var i := 0;
    while i < |lines|
      invariant 0 <= i <= |lines|
      invariant rows == Rows(lines[..i], parseReal, skipHeader)
    {
      var row := Accept(lines[i], parseReal, skipHeader);
      if row.Some? {
        rows := rows + [row.value];
      }
      assert lines[..i + 1][..i] == lines[..i];
      i := i + 1;
    }
    assert lines[..i] == lines;
    if rows == [] {
      r := Err(NoData);
    } else {
      r := Ok(Frame(rows, Seconds(rows)));
    }
  }

  /** The `Vdiff` column. */
  function Vdiffs(rows: seq<Row>): (vs: seq<real>)
    ensures |vs| == |rows|
    ensures forall k :: 0 <= k < |rows| ==> vs[k] == rows[k].vdiff
  {
    seq(|rows|, k requires 0 <= k < |rows| => rows[k].vdiff)
  }
}
