/** `_format_task`, the one-line text form of a task, and a reader that recovers the
    marker, id and title from such a line. */
module Rendering {
  import opened Wrappers
  import opened Strings
  import opened Numerals
  import opened Tasks

  /** 'x' for a completed task, a blank for anything else. */
  function Marker(status: string): (m: char) {
    if status == Completed then 'x' else ' '
  }

  /** `_format_task`: "[x] <id>: <title>" when the status is "completed", and
      "[ ] <id>: <title>" for every other status. */
  function FormatTask(t: Task): (line: string)
    ensures |line| > 6
    ensures line[0] == '[' && line[2] == ']' && line[3] == ' '
    ensures line[1] == 'x' <==> t.status == Completed
    ensures line[1] == ' ' <==> t.status != Completed
    ensures |t.title| < |line| && line[|line| - |t.title|..] == t.title
    ensures var d := IntToString(t.id);
      |line| == 6 + |d| + |t.title| && line[4..4 + |d|] == d && line[4 + |d|..6 + |d|] == ": "
  {
    "[" + [Marker(t.status)] + "] " + IntToString(t.id) + ": " + t.title
  }

  /** What a rendered line says: whether it is marked done, the id and the title. */
  datatype LineView = LineView(done: bool, id: int, title: string)

  /** Reads the part of a line after the marker, "<id>: <title>": the id text ends at the
      first colon, which must be followed by a blank. */
  function ParseEntry(rest: string): (r: Option<(int, string)>)
    ensures r.Some? ==> |r.value.1| < |rest| && rest[|rest| - |r.value.1|..] == r.value.1
  {
    match IndexOf(rest, ':')
    case None => None
    case Some(k) =>
      if k + 1 >= |rest| || rest[k + 1] != ' ' then None
      else
        match ParseInt(rest[..k])
        case None => None
        case Some(id) => Some((id, rest[k + 2..]))
  }

  /** Reads a line of the form "[m] <id>: <title>" with m either 'x' or a blank. Anything
      else is `None`. */
  function ParseTaskLine(line: string): (r: Option<LineView>)
    ensures r.Some? ==> |line| > 4 && (r.value.done <==> line[1] == 'x')
    ensures r.Some? ==> |r.value.title| < |line| && line[|line| - |r.value.title|..] == r.value.title
  {
    if |line| < 4 || line[0] != '[' || line[2] != ']' || line[3] != ' ' || (line[1] != 'x' && line[1] != ' ') then
      None
    else
      match ParseEntry(line[4..])
      case None => None
      case Some((id, title)) => Some(LineView(line[1] == 'x', id, title))
  }

  /** An entry assembled from an id text without colons and a title reads back as both. */
  lemma ParseEntryAssembled(digits: string, title: string)
    requires ParseInt(digits).Some? && ':' !in digits
    ensures ParseEntry(digits + ": " + title) == Some((ParseInt(digits).value, title))
  {
    var tail := " " + title;
    var rest := digits + [':'] + tail;
    assert digits + ": " + title == rest;
    IndexOfAfterPrefix(digits, ':', tail);
    assert rest[|digits| + 1] == ' ';
    assert rest[..|digits|] == digits;
    assert rest[|digits| + 2..] == title;
  }

  /** A line assembled from a marker, an id text without colons and a title reads back as
      those three parts. */
  lemma ParseAssembled(m: char, digits: string, title: string)
    requires m == 'x' || m == ' '
    requires ParseInt(digits).Some? && ':' !in digits
    ensures ParseTaskLine("[" + [m] + "] " + digits + ": " + title)
         == Some(LineView(m == 'x', ParseInt(digits).value, title))
  {
    var head, rest := "[" + [m] + "] ", digits + ": " + title;
    var line := "[" + [m] + "] " + digits + ": " + title;
    assert |head| == 4 && head[0] == '[' && head[1] == m && head[2] == ']' && head[3] == ' ';
    assert line == head + rest;
    assert line[4..] == rest;
    ParseEntryAssembled(digits, title);
  }

  /** Every rendered task reads back as its completion mark, id and title, so the line
      shows "x" exactly for completed tasks and loses neither id nor title. */
  lemma FormatThenParse(t: Task)
    ensures ParseTaskLine(FormatTask(t)) == Some(LineView(t.status == Completed, t.id, t.title))
  {
    var digits := IntToString(t.id);
    IntRoundTrip(t.id);
    assert ':' !in digits;
    ParseAssembled(Marker(t.status), digits, t.title);
  }
}
