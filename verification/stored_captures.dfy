/** What a collection reads of a probe's stored output: all that the raw output said, unless the stored text is too
    long. */
module StoredCaptures {
  import opened Wrappers
  import opened Json
  import opened Capture
  import opened Sanitizer
  import opened UsageCollector

  /** The longest capture that collect reads: 2 * 1024 * 1024 bytes. */
  const CAPTURE_LIMIT: nat := 2_097_152

  /** The characters stored for a line and its newline; event says how long a stored event prints. */
  function LineSize(line: Line, event: Line -> nat): nat {
    1 + match line
        case Blank => 0
        case Unparsable => |"{invalid}"|
        case Parsed(_) => event(line)
  }

  function TextSize(lines: seq<Line>, event: Line -> nat): nat {
    if lines == [] then 0 else TextSize(lines[..|lines| - 1], event) + LineSize(lines[|lines| - 1], event)
  }

  /** The stored file as read_data hands it to parse_capture. */
  function ReadBack(lines: seq<Line>, stamp: real, event: Line -> nat): CaptureFile {
    if TextSize(Stored(lines), event) > CAPTURE_LIMIT then Unreadable else Readable(Stored(lines), stamp)
  }

  /** Collecting the stored file gives what collecting the raw output would give exactly when the stored text is short
      enough; otherwise the capture counts as unread, and the window only expires. */
  lemma StoredCaptureCollects(lines: seq<Line>, stamp: real, event: Line -> nat, w: Window, now: real,
                              prev: Option<Record>)
    ensures CollectWindow(ReadBack(lines, stamp, event), w, now, prev) ==
      if TextSize(Stored(lines), event) <= CAPTURE_LIMIT then CollectWindow(Readable(lines, stamp), w, now, prev)
      else ExpireOption(prev, now)
  {
    SanitizingPreservesMeaning(lines, w, stamp, prev);
  }

  /** Blank and unparsable lines, each stored as the marker. */
  function Markers(lines: seq<Line>): nat {
    if lines == [] then 0
    else Markers(lines[..|lines| - 1]) + if lines[|lines| - 1].Parsed? then 0 else 1
  }

  lemma {:induction false} SizeConcat(x: seq<Line>, y: seq<Line>, event: Line -> nat)
    ensures TextSize(x + y, event) == TextSize(x, event) + TextSize(y, event)
  {
    if y == [] {
      assert x + y == x;
    } else {
      SizeConcat(x, y[..|y| - 1], event);
      assert (x + y)[..|x + y| - 1] == x + y[..|y| - 1];
    }
  }

  lemma OneMarker(event: Line -> nat)
    ensures TextSize([Unparsable], event) == 10
  {
    assert [Unparsable][..0] == [];
  }

  lemma {:induction false} MarkersTakeTen(lines: seq<Line>, event: Line -> nat)
    ensures TextSize(CleanLines(lines), event) >= 10 * Markers(lines)
  {
    if lines != [] {
      var init, last := lines[..|lines| - 1], lines[|lines| - 1];
      MarkersTakeTen(init, event);
      SizeConcat(CleanLines(init), CleanLine(last), event);
      OneMarker(event);
    }
  }

  /** The bound is met by blank lines alone: this many, one byte each in the raw output, make a stored text that no
      collection reads. */
  const MANY_MARKERS: nat := 209_716

  lemma ManyMarkersAreUnreadable(lines: seq<Line>, stamp: real, event: Line -> nat)
    requires Markers(lines) >= MANY_MARKERS
    ensures ReadBack(lines, stamp, event) == Unreadable
  {
    MarkersTakeTen(lines, event);
  }
}
