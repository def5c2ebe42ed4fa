/** The exception list of the audit gate: a line-driven parser, and the printing it inverts. */
module AuditExceptions {
  import opened Wrappers
  import opened PyText

  type Record = map<string, string>

  datatype Line =
    | Skipped
    | Item(entry: Option<(string, string)>)
    | Entry(key: string, value: string)

  // How the parser reads one line. An Item without an entry is the line that raises.
  function Classify(raw: string): Line
  {
    var line := Strip(raw);
    if line == "" || "#" <= line then Skipped
    else if "version:" <= line || "exceptions:" <= line then Skipped
    else if "- " <= line then Item(SplitKV(Strip(line[2..])))
    else if SplitKV(line).Some? then Entry(SplitKV(line).value.0, SplitKV(line).value.1)
    else Skipped
  }

  predicate IsItem(raw: string)
  {
    "- " <= Strip(raw)
  }

  // A text after "- " is never blank, because the line was stripped.
  lemma ItemNotBlank(line: string)
    requires Trimmed(line) && "- " <= line
    ensures Strip(line[2..]) != ""
  {
    assert line[1] == ' ' && IsSpace(' ');
    var rest := line[2..];
    assert rest[|rest| - 1] == line[|line| - 1];
    assert RStrip(rest) == rest;
    LStripKeepsEnd(rest);
  }

  lemma {:induction false} LStripKeepsEnd(s: string)
    requires s != "" && !IsSpace(s[|s| - 1])
    ensures LStrip(s) != ""
  {
    if !IsSpace(s[0]) {
    } else {
      LStripKeepsEnd(s[1..]);
    }
  }

  // The records finished so far, the one being read, and whether a line has raised.
  datatype Parsed = Parsed(finished: seq<Record>, current: Option<Record>) | Raised

  // `if current:` drops an empty record.
  function Flush(finished: seq<Record>, current: Option<Record>): seq<Record>
  {
    if current.Some? && current.value != map[] then finished + [current.value] else finished
  }

  // What one line does.
  function Next(p: Parsed, line: Line): Parsed
  {
    if p.Raised? then Raised
    else
      match line
      case Skipped => p
      case Item(None) => Raised
      case Item(Some((key, value))) => Parsed(Flush(p.finished, p.current), Some(map[key := value]))
      case Entry(key, value) =>
        Parsed(p.finished, if p.current.Some? then Some(p.current.value[key := value]) else None)
  }

  function Parse(lines: seq<Line>): Parsed
  {
    if lines == [] then Parsed([], None)
    else Next(Parse(lines[..|lines| - 1]), lines[|lines| - 1])
  }

  function RecordsOf(lines: seq<Line>): Option<seq<Record>>
  {
    var p := Parse(lines);
    if p.Raised? then None else Some(Flush(p.finished, p.current))
  }

  function Classified(lines: seq<string>): (classified: seq<Line>)
    ensures |classified| == |lines|
    ensures forall i | 0 <= i < |lines| :: classified[i] == Classify(lines[i])
  {
    seq(|lines|, i requires 0 <= i < |lines| => Classify(lines[i]))
  }

  function Records(lines: seq<string>): Option<seq<Record>>
  {
    RecordsOf(Classified(lines))
  }

  // A raised line stays raised.
  lemma {:induction false} RaisedStays(lines: seq<Line>, i: nat)
    requires i <= |lines| && Parse(lines[..i]).Raised?
    ensures Parse(lines).Raised?
  {
    if i == |lines| {
      assert lines[..i] == lines;
    } else {
      assert lines[..|lines| - 1][..i] == lines[..i];
      RaisedStays(lines[..|lines| - 1], i);
    }
  }

  /** parse_exceptions, over the lines of the file. None is the uncaught ValueError. */
  method ParseExceptions(lines: seq<string>) returns (result: Option<seq<Record>>)
    ensures result == Records(lines)
  {
    var exceptions: seq<Record>, current: Option<Record> := [], None;
    ghost var classified := Classified(lines);
    for i := 0 to |lines|
      invariant Parse(classified[..i]) == Parsed(exceptions, current)
    {
      assert classified[..i + 1][..i] == classified[..i];
      var line := Strip(lines[i]);
      StripTrims(lines[i]);
      if line == "" || "#" <= line {
        continue;
      }
      if "version:" <= line || "exceptions:" <= line {
        continue;
      }
      if "- " <= line {
        if current.Some? && current.value != map[] {
          exceptions := exceptions + [current.value];
        }
        current := Some(map[]);
        ItemNotBlank(line);
        line := Strip(line[2..]);
        if line != "" {
          match SplitKV(line)
          case None =>
            assert Parse(classified[..i + 1]).Raised?;
            RaisedStays(classified, i + 1);
            return None;
          case Some((key, value)) =>
            current := Some(current.value[key := value]);
        }
        continue;
      }
      SplitColonSome(line);
      if current.Some? && ':' in line {
        var kv := SplitKV(line).value;
        current := Some(current.value[kv.0 := kv.1]);
      }
    }
    assert classified[..|lines|] == classified;
    if current.Some? && current.value != map[] {
      exceptions := exceptions + [current.value];
    }
    return Some(exceptions);
  }
}
