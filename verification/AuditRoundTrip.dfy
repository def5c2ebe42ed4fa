/** What the exception parser guarantees: no record is lost or split, items are
    independent of each other, and printing is undone by parsing. */
module AuditRoundTrip {
  import opened Wrappers
  import opened Relations
  import opened PyText
  import opened AuditExceptions

  function Items(lines: seq<Line>): nat
  {
    if lines == [] then 0
    else Items(lines[..|lines| - 1]) + if lines[|lines| - 1].Item? then 1 else 0
  }

  // The parser is always inside a non-empty record once an item has been seen.
  ghost predicate InItem(p: Parsed, items: nat)
  {
    p.Parsed? ==>
      && p.current != Some(map[]) && map[] !in p.finished
      && |p.finished| + (if p.current.Some? then 1 else 0) == items
      && (p.current.None? ==> p.finished == [])
  }

  lemma NextInItem(p: Parsed, items: nat, line: Line)
    requires InItem(p, items)
    ensures InItem(Next(p, line), items + if line.Item? then 1 else 0)
    ensures Next(p, line).Raised? <==> p.Raised? || line == Item(None)
  {
    if p.Parsed? && line.Item? && line.entry.Some? {
      assert line.entry.value.0 in map[line.entry.value.0 := line.entry.value.1];
    }
    if p.Parsed? && line.Entry? && p.current.Some? {
      assert line.key in p.current.value[line.key := line.value];
    }
  }

  lemma {:induction false} ParseInItem(lines: seq<Line>)
    ensures InItem(Parse(lines), Items(lines))
    ensures Parse(lines).Raised? <==> exists k | 0 <= k < |lines| :: lines[k] == Item(None)
  {
    if lines == [] {
    } else {
      var n := |lines| - 1;
      ParseInItem(lines[..n]);
      NextInItem(Parse(lines[..n]), Items(lines[..n]), lines[n]);
      if Parse(lines[..n]).Raised? {
        var k :| 0 <= k < n && lines[..n][k] == Item(None);
        assert lines[k] == Item(None);
      }
    }
  }

  // The item lines the parser can read: something with a colon follows the dash.
  predicate ReadableItem(raw: string)
  {
    IsItem(raw) ==> ':' in Strip(Strip(raw)[2..])
  }

  lemma ClassifyItem(raw: string)
    ensures Classify(raw).Item? <==> IsItem(raw)
    ensures Classify(raw) == Item(None) <==> !ReadableItem(raw)
  {
    var line := Strip(raw);
    if "- " <= line {
      assert line[0] == '-';
      SplitColonSome(Strip(line[2..]));
    }
  }

  function ItemLines(lines: seq<string>): nat
  {
    if lines == [] then 0
    else ItemLines(lines[..|lines| - 1]) + if IsItem(lines[|lines| - 1]) then 1 else 0
  }

  lemma {:induction false} ItemLinesAreItems(lines: seq<string>)
    ensures ItemLines(lines) == Items(Classified(lines))
  {
    if lines == [] {
    } else {
      var n := |lines| - 1;
      ItemLinesAreItems(lines[..n]);
      ClassifyItem(lines[n]);
      assert Classified(lines)[..n] == Classified(lines[..n]);
    }
  }

  /** Conservation: parsing raises exactly when some line starting with "- " has no colon
      after it; otherwise it returns one non-empty record for each such line. */
  lemma {:induction false} OneRecordPerItem(lines: seq<string>)
    ensures Records(lines).None? <==> exists k | 0 <= k < |lines| :: !ReadableItem(lines[k])
    ensures Records(lines).Some? ==> |Records(lines).value| == ItemLines(lines) && map[] !in Records(lines).value
  {
    ParseInItem(Classified(lines));
    ItemLinesAreItems(lines);
    forall k | 0 <= k < |lines| ensures Classified(lines)[k] == Item(None) <==> !ReadableItem(lines[k]) {
      ClassifyItem(lines[k]);
    }
  }

  // A state reached after an item, continued from earlier records.
  function Continued(before: Option<seq<Record>>, p: Parsed): Parsed
  {
    if before.None? || p.Raised? then Raised else Parsed(before.value + p.finished, p.current)
  }

  lemma NextContinued(before: Option<seq<Record>>, p: Parsed, line: Line)
    requires p.Parsed? ==> p.current.Some?
    ensures Next(Continued(before, p), line) == Continued(before, Next(p, line))
    ensures Next(p, line).Parsed? ==> Next(p, line).current.Some?
  {
    if before.Some? && p.Parsed? {
      assert (before.value + p.finished) + [p.current.value] == before.value + (p.finished + [p.current.value]);
    }
  }

  lemma {:induction false} ParseAfter(a: seq<Line>, b: seq<Line>)
    requires b != [] && b[0].Item?
    ensures Parse(a + b) == Continued(RecordsOf(a), Parse(b))
    ensures Parse(b).Parsed? ==> Parse(b).current.Some?
  {
    var n := |b| - 1;
    assert (a + b)[|a + b| - 1] == b[n];
    if n == 0 {
      assert (a + b)[..|a|] == a && b[..0] == [];
      assert RecordsOf(a).Some? ==> RecordsOf(a).value + [] == RecordsOf(a).value;
    } else {
      assert (a + b)[..|a + b| - 1] == a + b[..n];
      ParseAfter(a, b[..n]);
      NextContinued(RecordsOf(a), Parse(b[..n]), b[n]);
    }
  }

  lemma RecordsConcat(a: seq<Line>, b: seq<Line>)
    requires b == [] || b[0].Item?
    ensures RecordsOf(a + b) ==
            if RecordsOf(a).Some? && RecordsOf(b).Some? then Some(RecordsOf(a).value + RecordsOf(b).value) else None
  {
    if b == [] {
      assert a + b == a;
      assert RecordsOf(a).Some? ==> RecordsOf(a).value + [] == RecordsOf(a).value;
    } else {
      ParseAfter(a, b);
      if RecordsOf(a).Some? && Parse(b).Parsed? {
        var p := Parse(b);
        assert (RecordsOf(a).value + p.finished) + [p.current.value] ==
               RecordsOf(a).value + (p.finished + [p.current.value]);
      }
    }
  }

  lemma ClassifiedConcat(a: seq<string>, b: seq<string>)
    ensures Classified(a + b) == Classified(a) + Classified(b)
  {
  }

  /** Items are independent: a file cut before an item line parses to the records of its
      two parts, in order. */
  lemma ParseConcat(a: seq<string>, b: seq<string>)
    requires b == [] || IsItem(b[0])
    ensures Records(a + b) ==
            if Records(a).Some? && Records(b).Some? then Some(Records(a).value + Records(b).value) else None
  {
    if b != [] {
      ClassifyItem(b[0]);
    }
    ClassifiedConcat(a, b);
    RecordsConcat(Classified(a), Classified(b));
  }

  // A key the printed form can carry.
  predicate SafeKey(k: string)
  {
    && k != "" && Trimmed(k) && ':' !in k && k[0] != '#' && !("- " <= k)
    && k != "version" && k != "exceptions"
  }

  // The ways a value can be written.
  datatype Style = Plain | Single | Double

  datatype KeyValue = KeyValue(key: string, value: string, style: Style)

  function Written(style: Style, value: string): string
  {
    match style
    case Plain => value
    case Single => "'" + value + "'"
    case Double => "\"" + value + "\""
  }

  // A value that can be written this way: any in quotes, and without them one that is
  // trimmed and does not look quoted.
  predicate Writable(style: Style, value: string)
  {
    style.Plain? ==> Trimmed(value) && !QuotedBy(value, '"') && !QuotedBy(value, '\'')
  }

  predicate SafeField(f: KeyValue)
  {
    SafeKey(f.key) && Writable(f.style, f.value)
  }

  function FieldText(f: KeyValue): string
  {
    f.key + ":" + if Written(f.style, f.value) == "" then "" else " " + Written(f.style, f.value)
  }

  function PrintedLine(f: KeyValue, first: bool): string
  {
    (if first then "  - " else "    ") + FieldText(f) + "\n"
  }

  // The list format of the repository's exception file.
  function PrintRecord(rec: seq<KeyValue>): seq<string>
  {
    if rec == [] then []
    else
      var n := |rec| - 1;
      PrintRecord(rec[..n]) + [PrintedLine(rec[n], n == 0)]
  }

  function PrintRecords(recs: seq<seq<KeyValue>>): seq<string>
  {
    if recs == [] then ["version: 1\n", "exceptions:\n"]
    else PrintRecords(recs[..|recs| - 1]) + PrintRecord(recs[|recs| - 1])
  }

  function ToRecord(rec: seq<KeyValue>): Record
  {
    if rec == [] then map[]
    else ToRecord(rec[..|rec| - 1])[rec[|rec| - 1].key := rec[|rec| - 1].value]
  }

  function ToRecords(recs: seq<seq<KeyValue>>): seq<Record>
  {
    if recs == [] then [] else ToRecords(recs[..|recs| - 1]) + [ToRecord(recs[|recs| - 1])]
  }

  /** What is written in either kind of quotes is read without them, and what is not quoted is
      read as it is. */
  lemma UnquoteWritten(style: Style, value: string)
    requires Writable(style, value)
    ensures Trimmed(Written(style, value)) && Unquote(Written(style, value)) == value
  {
    var t := Written(style, value);
    assert !IsSpace('"') && !IsSpace('\'');
    if !style.Plain? {
      assert |t| > 1 && t[0] == t[|t| - 1] && t[1..|t| - 1] == value;
    }
  }

  lemma ReadValue(f: KeyValue)
    requires SafeField(f)
    ensures SplitColon(FieldText(f)).Some? && SplitColon(FieldText(f)).value.0 == f.key
    ensures Unquote(Strip(SplitColon(FieldText(f)).value.1)) == f.value
  {
    var t := Written(f.style, f.value);
    UnquoteWritten(f.style, f.value);
    SplitColonAt(f.key, if t == "" then "" else " " + t);
    if t != "" {
      StripBlanks(" ", t, "");
      assert " " + t + "" == " " + t;
    }
  }

  lemma ReadField(f: KeyValue)
    requires SafeField(f)
    ensures SplitKV(FieldText(f)) == Some((f.key, f.value))
  {
    ReadValue(f);
    StripTrimmed(f.key);
  }

  lemma FieldTextTrimmed(f: KeyValue)
    requires SafeField(f)
    ensures FieldText(f) != "" && Trimmed(FieldText(f)) && FieldText(f)[0] == f.key[0]
  {
    var t, written := FieldText(f), Written(f.style, f.value);
    UnquoteWritten(f.style, f.value);
    assert t[0] == f.key[0] && !IsSpace(':');
    assert t[|t| - 1] == if written == "" then ':' else written[|written| - 1];
  }

  // Before the first colon there is only one word.
  lemma WordBeforeColon(word: string, key: string, rest: string)
    requires ':' !in word && ':' !in key
    requires word + ":" <= key + ":" + rest
    ensures word == key
  {
    var t := key + ":" + rest;
    assert t[|word|] == ':' && t[|key|] == ':';
    assert forall i | 0 <= i < |word| :: word[i] == t[i];
    assert forall i | 0 <= i < |key| :: key[i] == t[i];
    assert |word| == |key|;
  }

  // A safe key hides no keyword and no dash at the start of its line.
  lemma NoKeyword(f: KeyValue)
    requires SafeField(f)
    ensures var t := FieldText(f);
      !("#" <= t) && !("version:" <= t) && !("exceptions:" <= t) && !("- " <= t)
  {
    var t := FieldText(f);
    var rest := if Written(f.style, f.value) == "" then "" else " " + Written(f.style, f.value);
    FieldTextTrimmed(f);
    assert t == f.key + ":" + rest;
    if "version" + ":" <= t {
      WordBeforeColon("version", f.key, rest);
    }
    if "exceptions" + ":" <= t {
      WordBeforeColon("exceptions", f.key, rest);
    }
    assert |f.key| == 1 ==> t[1] == ':';
    assert |f.key| > 1 ==> t[..2] == f.key[..2];
  }

  lemma ReadItemLine(f: KeyValue)
    requires SafeField(f)
    ensures Classify("  - " + FieldText(f) + "\n") == Item(Some((f.key, f.value)))
  {
    var t := FieldText(f);
    FieldTextTrimmed(f);
    var line := "- " + t;
    assert line[0] == '-' && line[|line| - 1] == t[|t| - 1] && !IsSpace('-');
    assert "  - " + t + "\n" == "  " + line + "\n";
    StripBlanks("  ", line, "\n");
    assert line[2..] == t;
    StripTrimmed(t);
    ReadField(f);
  }

  lemma ReadFieldLine(f: KeyValue)
    requires SafeField(f)
    ensures Classify("    " + FieldText(f) + "\n") == Entry(f.key, f.value)
  {
    FieldTextTrimmed(f);
    StripBlanks("    ", FieldText(f), "\n");
    NoKeyword(f);
    ReadField(f);
  }

  predicate SafeFields(rec: seq<KeyValue>)
  {
    forall i | 0 <= i < |rec| :: SafeField(rec[i])
  }

  lemma ParseFirst(f: KeyValue)
    requires SafeField(f)
    ensures Classify(PrintedLine(f, true)) == Item(Some((f.key, f.value))) && IsItem(PrintedLine(f, true))
    ensures Parse(Classified([PrintedLine(f, true)])) == Parsed([], Some(map[f.key := f.value]))
  {
    var line := PrintedLine(f, true);
    ReadItemLine(f);
    ClassifyItem(line);
    ParseOneMore([], line);
    assert [] + [line] == [line];
    assert Parse(Classified([])) == Parsed([], None);
  }

  // The last field of a record is read into what its other fields gave.
  lemma ParseMore(lines: seq<string>, r: Record, rec: seq<KeyValue>)
    requires rec != [] && SafeFields(rec) && Parse(Classified(lines)) == Parsed([], Some(r))
    ensures var f := rec[|rec| - 1];
      Parse(Classified(lines + [PrintedLine(f, false)])) == Parsed([], Some(r[f.key := f.value]))
  {
    var f := rec[|rec| - 1];
    ReadFieldLine(f);
    ParseOneMore(lines, PrintedLine(f, false));
  }

  lemma {:induction false} PrintedFirst(rec: seq<KeyValue>)
    requires rec != []
    ensures PrintRecord(rec) != [] && PrintRecord(rec)[0] == PrintedLine(rec[0], true)
  {
    if |rec| == 1 {
      assert rec[..0] == [];
    } else {
      PrintedFirst(rec[..|rec| - 1]);
    }
  }

  lemma ParsePrintedOne(rec: seq<KeyValue>)
    requires |rec| == 1 && SafeFields(rec)
    ensures Parse(Classified(PrintRecord(rec))) == Parsed([], Some(ToRecord(rec)))
  {
    ParseFirst(rec[0]);
    assert rec[..0] == [] && PrintRecord(rec) == [PrintedLine(rec[0], true)];
  }

  lemma {:induction false} ParsePrinted(rec: seq<KeyValue>)
    requires rec != [] && SafeFields(rec)
    ensures Parse(Classified(PrintRecord(rec))) == Parsed([], Some(ToRecord(rec)))
  {
    var n := |rec| - 1;
    if n == 0 {
      ParsePrintedOne(rec);
    } else {
      ParsePrinted(rec[..n]);
      ParseMore(PrintRecord(rec[..n]), ToRecord(rec[..n]), rec);
    }
  }

  lemma {:induction false} PrintedRecords(rec: seq<KeyValue>)
    requires rec != [] && SafeFields(rec)
    ensures PrintRecord(rec) != [] && IsItem(PrintRecord(rec)[0])
    ensures Records(PrintRecord(rec)) == Some([ToRecord(rec)])
  {
    ParsePrinted(rec);
    PrintedFirst(rec);
    ParseFirst(rec[0]);
    assert rec[|rec| - 1].key in ToRecord(rec);
    assert [] + [ToRecord(rec)] == [ToRecord(rec)];
  }

  lemma HeaderLine(text: string)
    requires text != "" && Trimmed(text) && ("version:" <= text || "exceptions:" <= text)
    ensures Classify(text + "\n") == Skipped
  {
    StripBlanks("", text, "\n");
    assert "" + text + "\n" == text + "\n";
  }

  lemma ParseHeader()
    ensures Records(["version: 1\n", "exceptions:\n"]) == Some([])
  {
    assert !IsSpace('v') && !IsSpace('1') && !IsSpace('e') && !IsSpace(':');
    HeaderLine("version: 1");
    HeaderLine("exceptions:");
    assert "version: 1" + "\n" == "version: 1\n" && "exceptions:" + "\n" == "exceptions:\n";
    ParseOneMore([], "version: 1\n");
    ParseOneMore(["version: 1\n"], "exceptions:\n");
    assert [] + ["version: 1\n"] == ["version: 1\n"];
    assert ["version: 1\n"] + ["exceptions:\n"] == ["version: 1\n", "exceptions:\n"];
    assert Parse(Classified([])) == Parsed([], None);
  }

  /** The record holds, for each key, the value of its last field, and nothing else. */
  lemma {:induction false} LastFieldWins(rec: seq<KeyValue>, key: string)
    ensures key in ToRecord(rec) <==> exists k | 0 <= k < |rec| :: rec[k].key == key
    ensures forall k | 0 <= k < |rec| && rec[k].key == key && (forall j | k < j < |rec| :: rec[j].key != key) ::
              ToRecord(rec)[key] == rec[k].value
  {
    if rec == [] {
    } else {
      var n := |rec| - 1;
      LastFieldWins(rec[..n], key);
      assert forall k | 0 <= k < n :: rec[..n][k] == rec[k];
    }
  }

  /** Round trip: printing any list of non-empty records with safe keys, each value in double
      quotes, in single quotes or without quotes, and parsing the lines, gives the same records
      back. Each printed field is one line of a file, so the values have no newlines. */
  lemma {:induction false} PrintThenParse(recs: seq<seq<KeyValue>>)
    requires forall i | 0 <= i < |recs| :: recs[i] != [] && SafeFields(recs[i])
    ensures Records(PrintRecords(recs)) == Some(ToRecords(recs))
  {
    if recs == [] {
      ParseHeader();
    } else {
      var rec := recs[|recs| - 1];
      PrintThenParse(recs[..|recs| - 1]);
      PrintedRecords(rec);
      ParseConcat(PrintRecords(recs[..|recs| - 1]), PrintRecord(rec));
    }
  }

  // A line with nothing but a dash, which starts a new item of a YAML block list.
  predicate BareDash(raw: string)
  {
    Strip(raw) == "-"
  }

  function Dashes(lines: seq<string>): nat
  {
    if lines == [] then 0
    else Dashes(lines[..|lines| - 1]) + if BareDash(lines[|lines| - 1]) then 1 else 0
  }

  lemma {:induction false} NoDashes(lines: seq<string>)
    ensures Dashes(lines) == 0 <==> forall k | 0 <= k < |lines| :: !BareDash(lines[k])
  {
    if lines == [] {
    } else {
      var n := |lines| - 1;
      NoDashes(lines[..n]);
      assert (forall k | 0 <= k < n :: !BareDash(lines[..n][k])) <==> forall k | 0 <= k < n :: !BareDash(lines[k]);
    }
  }

  /** Counting as an item every line that is a bare dash or starts with a dash and a blank,
      the parser returns one record per item exactly when no line is a bare dash; every bare
      dash loses one. */
  lemma {:induction false} BareDashesLoseRecords(lines: seq<string>)
    requires Records(lines).Some?
    ensures |Records(lines).value| == ItemLines(lines)
    ensures |Records(lines).value| == ItemLines(lines) + Dashes(lines) <==>
            forall k | 0 <= k < |lines| :: !BareDash(lines[k])
  {
    OneRecordPerItem(lines);
    NoDashes(lines);
  }

  function WithoutDashes(lines: seq<string>): seq<string>
  {
    Select((raw: string) => !BareDash(raw), lines)
  }

  /** Bare dashes are never seen: deleting them all changes nothing, so the fields after one
      belong to the item before it. */
  lemma {:induction false} BareDashesAreIgnored(lines: seq<string>)
    ensures Parse(Classified(WithoutDashes(lines))) == Parse(Classified(lines))
    ensures Records(WithoutDashes(lines)) == Records(lines)
  {
    if lines == [] {
    } else {
      var n := |lines| - 1;
      var kept := WithoutDashes(lines[..n]);
      BareDashesAreIgnored(lines[..n]);
      assert lines == lines[..n] + [lines[n]];
      ParseOneMore(lines[..n], lines[n]);
      if BareDash(lines[n]) {
        DashIsSkipped(lines[n]);
        assert WithoutDashes(lines) == kept;
      } else {
        assert WithoutDashes(lines) == kept + [lines[n]];
        ParseOneMore(kept, lines[n]);
      }
    }
  }

  // Text after the keyword of the list, such as a list in brackets.
  predicate ListHeader(raw: string)
  {
    "exceptions:" <= Strip(raw)
  }

  lemma ParseLast(before: seq<string>, after: seq<string>)
    requires after != []
    ensures var n := |after| - 1;
      Parse(Classified(before + after)) == Next(Parse(Classified(before + after[..n])), Classify(after[n]))
  {
    var n := |after| - 1;
    assert before + after == before + after[..n] + [after[n]];
    ParseOneMore(before + after[..n], after[n]);
  }

  lemma {:induction false} ParseWithout(before: seq<string>, raw: string, after: seq<string>)
    requires Classify(raw) == Skipped
    ensures Parse(Classified(before + [raw] + after)) == Parse(Classified(before + after))
  {
    if after == [] {
      assert before + [raw] + after == before + [raw] && before + after == before;
      ParseOneMore(before, raw);
    } else {
      ParseWithout(before, raw, after[..|after| - 1]);
      ParseLast(before + [raw], after);
      ParseLast(before, after);
    }
  }

  predicate Spacing(s: string)
  {
    forall i | 0 <= i < |s| :: s[i] in {' ', '\t', '\n', '\r'}
  }

  /** Neither the indentation of a line nor how it ends makes a difference. */
  lemma SpacingIsIgnored(lines: seq<string>, pads: seq<string>, ends: seq<string>, padded: seq<string>)
    requires |lines| == |pads| == |ends| == |padded|
    requires forall k | 0 <= k < |lines| ::
               Spacing(pads[k]) && Spacing(ends[k]) && padded[k] == pads[k] + lines[k] + ends[k]
    ensures Records(padded) == Records(lines)
  {
    forall k | 0 <= k < |lines| ensures Classify(padded[k]) == Classify(lines[k]) {
      assert IsSpace(' ') && IsSpace('\t') && IsSpace('\n') && IsSpace('\r');
      StripPadded(pads[k], lines[k], ends[k]);
    }
    assert Classified(padded) == Classified(lines);
  }

  // Blank lines, comments, the version, and text that is neither an item nor has a colon.
  predicate Ignorable(raw: string)
  {
    var line := Strip(raw);
    || line == "" || line[0] == '#' || "version:" <= line || "exceptions:" <= line
    || (':' !in line && !("- " <= line))
  }

  /** Deleting such a line anywhere changes nothing. */
  lemma IgnorableLines(before: seq<string>, raw: string, after: seq<string>)
    requires Ignorable(raw)
    ensures Records(before + [raw] + after) == Records(before + after)
  {
    SplitColonSome(Strip(raw));
    ParseWithout(before, raw, after);
  }

  /** What follows the keyword on its own line is never read: items written there in brackets
      are lost, without a bare dash. */
  lemma BracketedItemsAreIgnored(before: seq<string>, raw: string, after: seq<string>)
    requires ListHeader(raw)
    ensures Records(before + [raw] + after) == Records(before + after)
  {
    IgnorableLines(before, raw, after);
  }

  lemma ParseOneMore(lines: seq<string>, raw: string)
    ensures Parse(Classified(lines + [raw])) == Next(Parse(Classified(lines)), Classify(raw))
  {
    assert Classified(lines + [raw])[..|lines|] == Classified(lines);
  }

  /** A dash alone on its line is a new item in YAML, but not here: the fields after it are
      merged into the record before it, and overwrite what that record said. */
  lemma BareDashMergesRecords(first: KeyValue, second: KeyValue)
    requires SafeField(first) && SafeField(second) && first.key == second.key
    ensures Records(["  - " + FieldText(first) + "\n", "-", "    " + FieldText(second) + "\n"]) ==
            Some([map[first.key := second.value]])
  {
    ReadItemLine(first);
    ReadFieldLine(second);
    assert !IsSpace('-');
    StripTrimmed("-");
    DashIsSkipped("-");
    assert Classified(["  - " + FieldText(first) + "\n", "-", "    " + FieldText(second) + "\n"])
        == [Item(Some((first.key, first.value))), Skipped, Entry(second.key, second.value)];
    MergedRecord(first.key, first.value, second.value);
  }

  lemma MergedRecord(key: string, first: string, second: string)
    ensures RecordsOf([Item(Some((key, first))), Skipped, Entry(key, second)]) == Some([map[key := second]])
  {
    var item, entry := Item(Some((key, first))), Entry(key, second);
    assert [item, Skipped, entry][..2] == [item, Skipped];
    assert [item, Skipped][..1] == [item];
    assert [item][..0] == [];
    assert Parse([item]) == Parsed([], Some(map[key := first]));
    assert Parse([item, Skipped]) == Parsed([], Some(map[key := first]));
    assert map[key := first][key := second] == map[key := second];
    assert Parse([item, Skipped, entry]) == Parsed([], Some(map[key := second]));
    assert key in map[key := second];
    assert [] + [map[key := second]] == [map[key := second]];
  }

  lemma DashIsSkipped(raw: string)
    requires BareDash(raw)
    ensures Classify(raw) == Skipped
  {
    SplitColonSome("-");
  }
}
