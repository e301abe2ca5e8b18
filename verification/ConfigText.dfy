/** The text of a configuration file: lines as fgets splits them, and the fields sscanf finds in a line
  (sensors_config.c). Conversions follow section 7.21.6.2 of ISO/IEC 9899:2011. */
module ConfigText {
  import opened Options
  import opened CText

  const MAX_STR_LEN := 64
  const SEPARATORS: set<char> := {' ', '='}

  datatype Record = Record(prefix: string, key: string, value: string)

  /** How many leading characters are outside a set, up to a width: the conversion `%64[^...]`. */
  function SpanOutside(s: string, stop: set<char>, width: nat): (n: nat)
    ensures n <= |s| && n <= width
    ensures forall i :: 0 <= i < n ==> s[i] !in stop
    ensures n < |s| && n < width ==> s[n] in stop
  {
    if width == 0 || s == "" || s[0] in stop then 0 else 1 + SpanOutside(s[1..], stop, width - 1)
  }

  /** How many leading characters are in a set: the conversion `%*[...]`. */
  function SpanInside(s: string, accept: set<char>): (n: nat)
    ensures n <= |s|
    ensures forall i :: 0 <= i < n ==> s[i] in accept
    ensures n < |s| ==> s[n] !in accept
  {
    if s == "" || s[0] !in accept then 0 else 1 + SpanInside(s[1..], accept)
  }

  /** The end of the first sscanf, `%*[ =]%64[^\n]`: the value behind a separator. */
  function ScanValue(s: string): Option<string> {
    var c := SpanInside(s, SEPARATORS);
    var d := SpanOutside(s[c..], {'\n'}, MAX_STR_LEN);
    if c == 0 || d == 0 then None else Some(s[c..][..d])
  }

  /** The first sscanf from `%64[^ =]` on: the key and the value. */
  function ScanKey(s: string): Option<(string, string)> {
    var b := SpanOutside(s, SEPARATORS, MAX_STR_LEN);
    if b == 0 then None else
    match ScanValue(s[b..])
    case None => None
    case Some(value) => Some((s[..b], value))
  }

  /** The first sscanf of a line, `%64[^_]_...`; None when fewer than three fields are converted. */
  function ScanRecord(line: string): Option<Record> {
    var a := SpanOutside(line, {'_'}, MAX_STR_LEN);
    if a == 0 || a == |line| || line[a] != '_' then None else
    match ScanKey(line[a + 1..])
    case None => None
    case Some((key, value)) => Some(Record(line[..a], key, value))
  }

  /** The second sscanf: a line that starts with neither a blank nor a line end is an error. */
  predicate HasWord(line: string) {
    SpanOutside(line, {' ', '\n'}, MAX_STR_LEN) > 0
  }

  predicate IsComment(line: string) {
    line != "" && line[0] == '#'
  }

  predicate IsMalformed(line: string) {
    !IsComment(line) && ScanRecord(line) == None && HasWord(line)
  }

  /** A line as documented: the prefix without underscore, the key without blank or equals sign, some of these two
    characters between key and value, and the value up to the line end. */
  predicate IsField(r: Record) {
    && r.prefix != "" && '_' !in r.prefix
    && r.key != "" && (forall i :: 0 <= i < |r.key| ==> r.key[i] !in SEPARATORS)
    && r.value != "" && r.value[0] !in SEPARATORS && '\n' !in r.value
  }

  predicate IsSeparator(s: string) {
    s != "" && forall i :: 0 <= i < |s| ==> s[i] in SEPARATORS
  }

  function LineOf(r: Record, separator: string): string {
    r.prefix + "_" + r.key + separator + r.value + "\n"
  }

  lemma {:induction false} SpanOutsideIs(s: string, stop: set<char>, width: nat, n: nat)
    requires n <= |s| && n <= width
    requires forall i :: 0 <= i < n ==> s[i] !in stop
    requires n < |s| && n < width ==> s[n] in stop
    ensures SpanOutside(s, stop, width) == n
  {
  }

  lemma {:induction false} SpanInsideIs(s: string, accept: set<char>, n: nat)
    requires n <= |s| && (forall i :: 0 <= i < n ==> s[i] in accept) && (n < |s| ==> s[n] !in accept)
    ensures SpanInside(s, accept) == n
  {
  }

  lemma ScanOfValue(separator: string, value: string)
    requires IsSeparator(separator) && value != "" && value[0] !in SEPARATORS && '\n' !in value
    requires |value| < MAX_STR_LEN
    ensures ScanValue(separator + (value + "\n")) == Some(value)
  {
    hide SpanOutside, SpanInside;
    var s := separator + (value + "\n");
    var c := |separator|;
    assert s[c] == value[0] && s[c..] == value + "\n";
    SpanInsideIs(s, SEPARATORS, c);
    SpanOutsideIs(value + "\n", {'\n'}, MAX_STR_LEN, |value|);
  }

  lemma ScanOfKey(key: string, separator: string, value: string)
    requires key != "" && (forall i :: 0 <= i < |key| ==> key[i] !in SEPARATORS) && |key| < MAX_STR_LEN
    requires IsSeparator(separator) && value != "" && value[0] !in SEPARATORS && '\n' !in value
    requires |value| < MAX_STR_LEN
    ensures ScanKey(key + (separator + (value + "\n"))) == Some((key, value))
  {
    hide SpanOutside, SpanInside, ScanValue;
    var tail := separator + (value + "\n");
    var s := key + tail;
    var b := |key|;
    assert s[b] == separator[0] && s[..b] == key && s[b..] == tail;
    SpanOutsideIs(s, SEPARATORS, MAX_STR_LEN, b);
    ScanOfValue(separator, value);
  }

  /** Scanning a documented line that fits the buffer recovers its three fields. */
  lemma ScanOfLine(r: Record, separator: string)
    requires IsField(r) && IsSeparator(separator) && |LineOf(r, separator)| < MAX_STR_LEN
    ensures ScanRecord(LineOf(r, separator)) == Some(r)
  {
    hide SpanOutside, SpanInside, ScanKey;
    var line := LineOf(r, separator);
    var rest := r.key + (separator + (r.value + "\n"));
    var a := |r.prefix|;
    assert line == r.prefix + "_" + rest;
    assert line[..a] == r.prefix && line[a] == '_' && line[a + 1..] == rest;
    SpanOutsideIs(line, {'_'}, MAX_STR_LEN, a);
    ScanOfKey(r.key, separator, r.value);
  }

  lemma ScannedValue(s: string, value: string)
    requires ScanValue(s) == Some(value)
    ensures value != "" && value[0] !in SEPARATORS && '\n' !in value
    ensures exists separator :: IsSeparator(separator) && separator + value <= s
  {
    hide SpanOutside, SpanInside;
    var c := SpanInside(s, SEPARATORS);
    assert s[..c] + value <= s;
    assert IsSeparator(s[..c]);
  }

  lemma ScannedKey(s: string, key: string, value: string)
    requires ScanKey(s) == Some((key, value))
    ensures key != "" && (forall i :: 0 <= i < |key| ==> key[i] !in SEPARATORS)
    ensures value != "" && value[0] !in SEPARATORS && '\n' !in value
    ensures exists separator :: IsSeparator(separator) && key + separator + value <= s
  {
    hide SpanOutside, SpanInside, ScanValue;
    var b := SpanOutside(s, SEPARATORS, MAX_STR_LEN);
    ScannedValue(s[b..], value);
    var separator :| IsSeparator(separator) && separator + value <= s[b..];
    assert s == key + s[b..];
    assert key + separator + value == key + (separator + value);
    PrefixOfRest(key, separator + value, s[b..]);
  }

  lemma PrefixOfRest(a: string, b: string, c: string)
    requires b <= c
    ensures a + b <= a + c
  {
  }

  /** Whatever is scanned from a line is a documented record, and the line starts with its text. */
  lemma ScannedIsField(line: string, r: Record)
    requires ScanRecord(line) == Some(r)
    ensures IsField(r)
    ensures exists separator :: IsSeparator(separator) && r.prefix + "_" + (r.key + separator + r.value) <= line
  {
    hide SpanOutside, SpanInside, ScanKey;
    var a := SpanOutside(line, {'_'}, MAX_STR_LEN);
    var rest := line[a + 1..];
    ScannedKey(rest, r.key, r.value);
    var separator :| IsSeparator(separator) && r.key + separator + r.value <= rest;
    assert line == r.prefix + "_" + rest;
    PrefixOfRest(r.prefix + "_", r.key + separator + r.value, rest);
  }

  // ---- lines ----

  /** What one fgets with a 64 character buffer reads: through the line end, but at most 63 characters. */
  function LineLength(s: string): (n: nat)
    ensures n <= |s| && n < MAX_STR_LEN
    ensures s != "" ==> n > 0
  {
    var n := SpanOutside(s, {'\n'}, MAX_STR_LEN - 1);
    if n < |s| && n < MAX_STR_LEN - 1 then n + 1 else n
  }

  /** The strings in the buffer, read by read: each ends at a terminator in the file, if there is one. */
  function Lines(file: string): seq<string>
    decreases |file|
  {
    if file == "" then [] else
    var n := LineLength(file);
    [CString(file[..n])] + Lines(file[n..])
  }

  lemma FirstLineOf(file: string)
    ensures file == "" ==> Lines(file) == []
    ensures file != "" ==>
              var n := LineLength(file);
              Lines(file) != [] && Lines(file)[0] == CString(file[..n]) && Lines(file)[1..] == Lines(file[n..])
  {
    hide LineLength, CString;
  }

  /** A complete line that fits the buffer. */
  predicate IsLine(line: string) {
    0 < |line| < MAX_STR_LEN && line[|line| - 1] == '\n' && '\n' !in line[..|line| - 1] && NUL !in line
  }

  function Concat(lines: seq<string>): string {
    if lines == [] then "" else lines[0] + Concat(lines[1..])
  }

  /** A file of complete lines that fit the buffer is split into those lines. */
  lemma {:induction false} LinesOfConcat(lines: seq<string>)
    requires forall i :: 0 <= i < |lines| ==> IsLine(lines[i])
    ensures Lines(Concat(lines)) == lines
  {
    if lines == [] {
    } else {
      var file, rest := Concat(lines), Concat(lines[1..]);
      assert file == lines[0] + rest;
      var n := |lines[0]|;
      assert file[..n] == lines[0] && file[n..] == rest;
      assert file[n - 1] == '\n' && forall i :: 0 <= i < n - 1 ==> file[i] == lines[0][..n - 1][i];
      SpanOutsideIs(file, {'\n'}, MAX_STR_LEN - 1, n - 1);
      LinesOfConcat(lines[1..]);
    }
  }

  /** The record a line contributes, if any. */
  function RecordOfLine(line: string): seq<Record> {
    if !IsComment(line) && ScanRecord(line).Some? then [ScanRecord(line).value] else []
  }

  /** The records of a sequence of lines, in file order. */
  function RecordsOf(lines: seq<string>): seq<Record> {
    if lines == [] then [] else RecordOfLine(lines[0]) + RecordsOf(lines[1..])
  }

  lemma RecordsOfStep(lines: seq<string>)
    requires lines != []
    ensures RecordsOf(lines) == RecordOfLine(lines[0]) + RecordsOf(lines[1..])
  {
  }

  lemma EmptyRecords(lines: seq<string>)
    ensures lines == [] ==> RecordsOf(lines) == []
  {
  }

  // ---- documented files ----

  /** A line of a documented file: one to be skipped, or an entry with its separator. */
  datatype DocLine = Skipped(text: string) | Entry(record: Record, separator: string)

  /** A comment or a line of blanks. */
  predicate IsSkipped(text: string) {
    IsComment(text) || forall i :: 0 <= i < |text| - 1 ==> text[i] == ' '
  }

  /** A line of a documented file that fits the buffer. */
  predicate IsDocLine(l: DocLine) {
    match l
    case Skipped(text) => IsLine(text) && IsSkipped(text)
    case Entry(r, separator) =>
      && IsField(r) && IsSeparator(separator) && r.prefix[0] != '#' && '\n' !in r.prefix && '\n' !in r.key
      && |LineOf(r, separator)| < MAX_STR_LEN && NUL !in LineOf(r, separator)
  }

  predicate IsDocument(doc: seq<DocLine>) {
    forall i :: 0 <= i < |doc| ==> IsDocLine(doc[i])
  }

  function TextOf(l: DocLine): string {
    match l
    case Skipped(text) => text
    case Entry(r, separator) => LineOf(r, separator)
  }

  function TextLines(doc: seq<DocLine>): seq<string> {
    seq(|doc|, i requires 0 <= i < |doc| => TextOf(doc[i]))
  }

  /** The text of the file. */
  function FileOf(doc: seq<DocLine>): string {
    Concat(TextLines(doc))
  }

  /** The records written in it. */
  function EntriesOf(doc: seq<DocLine>): seq<Record> {
    if doc == [] then [] else
    (match doc[0] case Skipped(_) => [] case Entry(r, _) => [r]) + EntriesOf(doc[1..])
  }

  lemma SkippedLine(line: string)
    requires IsLine(line) && IsSkipped(line)
    ensures !IsMalformed(line) && RecordOfLine(line) == []
  {
    hide SpanOutside;
    if !IsComment(line) {
      SpanOutsideIs(line, {'_'}, MAX_STR_LEN, |line|);
      SpanOutsideIs(line, {' ', '\n'}, MAX_STR_LEN, 0);
    }
  }

  lemma EntryLine(r: Record, separator: string)
    requires IsDocLine(Entry(r, separator))
    ensures var line := LineOf(r, separator);
            IsLine(line) && !IsMalformed(line) && RecordOfLine(line) == [r]
  {
    hide ScanRecord, HasWord, SpanOutside;
    var line := LineOf(r, separator);
    ScanOfLine(r, separator);
    assert line[0] == r.prefix[0];
    assert line[..|line| - 1] == r.prefix + "_" + r.key + separator + r.value;
  }

  lemma DocumentedLine(l: DocLine)
    requires IsDocLine(l)
    ensures IsLine(TextOf(l)) && !IsMalformed(TextOf(l))
    ensures RecordOfLine(TextOf(l)) == match l case Skipped(_) => [] case Entry(r, _) => [r]
  {
    hide IsLine, IsMalformed, RecordOfLine, LineOf;
    match l
    case Skipped(text) => SkippedLine(text);
    case Entry(r, separator) => EntryLine(r, separator);
  }

  lemma {:induction false} RecordsOfDocument(doc: seq<DocLine>)
    requires IsDocument(doc)
    ensures RecordsOf(TextLines(doc)) == EntriesOf(doc)
  {
    if doc == [] {
    } else {
      hide IsDocLine, TextOf, RecordOfLine;
      assert TextLines(doc)[1..] == TextLines(doc[1..]);
      RecordsOfDocument(doc[1..]);
      DocumentedLine(doc[0]);
    }
  }

  lemma DocumentedLines(doc: seq<DocLine>)
    requires IsDocument(doc)
    ensures forall i :: 0 <= i < |doc| ==> IsLine(TextLines(doc)[i]) && !IsMalformed(TextLines(doc)[i])
  {
    hide IsDocLine, TextOf, IsLine, IsMalformed;
    forall i | 0 <= i < |doc|
      ensures IsLine(TextLines(doc)[i]) && !IsMalformed(TextLines(doc)[i])
    {
      DocumentedLine(doc[i]);
    }
  }

  /** Main result: a file of comments, blank lines and entries in the documented form, with any separators, is read back
    entry by entry, without a malformed line. */
  lemma FileRoundTrip(doc: seq<DocLine>)
    requires IsDocument(doc)
    ensures RecordsOf(Lines(FileOf(doc))) == EntriesOf(doc)
    ensures forall line :: line in Lines(FileOf(doc)) ==> !IsMalformed(line)
  {
    hide IsDocument, Lines, Concat, RecordsOf, EntriesOf, IsLine, IsMalformed, TextOf;
    DocumentedLines(doc);
    LinesOfConcat(TextLines(doc));
    RecordsOfDocument(doc);
  }

  /** Every entry of a document is documented together with some separator. */
  lemma {:induction false} EntryIsDocumented(doc: seq<DocLine>, k: nat) returns (separator: string)
    requires IsDocument(doc) && k < |EntriesOf(doc)|
    ensures IsDocLine(Entry(EntriesOf(doc)[k], separator))
  {
    hide IsDocLine;
    if doc[0].Entry? && k == 0 {
      separator := doc[0].separator;
    } else {
      separator := EntryIsDocumented(doc[1..], if doc[0].Entry? then k - 1 else k);
    }
  }

  // ---- which lines are malformed ----

  /** The line starts with the text of a documented record. */
  ghost predicate StartsWithRecord(line: string) {
    exists r, separator ::
      IsField(r) && IsSeparator(separator) && r.prefix + "_" + (r.key + separator + r.value) <= line
  }

  lemma ScanOfValueStart(separator: string, value: string, tail: string)
    requires IsSeparator(separator) && value != "" && value[0] !in SEPARATORS && '\n' !in value
    ensures ScanValue(separator + (value + tail)).Some?
  {
    hide SpanOutside, SpanInside;
    var s := separator + (value + tail);
    var c := |separator|;
    assert s[c] == value[0] && s[c..] == value + tail;
    SpanInsideIs(s, SEPARATORS, c);
    assert (value + tail)[0] == value[0] && value[0] in value;
    assert SpanOutside(value + tail, {'\n'}, MAX_STR_LEN) > 0;
  }

  lemma ScanOfRecordStart(line: string, r: Record, separator: string)
    requires |line| < MAX_STR_LEN && IsField(r) && IsSeparator(separator)
    requires r.prefix + "_" + (r.key + separator + r.value) <= line
    ensures ScanRecord(line).Some?
  {
    hide SpanOutside, SpanInside, ScanValue;
    var text := r.prefix + "_" + (r.key + separator + r.value);
    var tail := line[|text|..];
    var a, b := |r.prefix|, |r.key|;
    var value := separator + (r.value + tail);
    var rest := r.key + value;
    assert line == text + tail && line == r.prefix + "_" + rest;
    assert line[..a] == r.prefix && line[a] == '_' && line[a + 1..] == rest;
    SpanOutsideIs(line, {'_'}, MAX_STR_LEN, a);
    assert rest[b] == separator[0] && rest[b..] == value;
    SpanOutsideIs(rest, SEPARATORS, MAX_STR_LEN, b);
    ScanOfValueStart(separator, r.value, tail);
  }

  /** A line in the buffer is malformed if and only if it starts with neither a comment sign, nor a blank, nor the line
    end, nor a documented record. */
  lemma MalformedIff(line: string)
    requires |line| < MAX_STR_LEN
    ensures IsMalformed(line) <==>
            line != "" && line[0] != '#' && line[0] != ' ' && line[0] != '\n' && !StartsWithRecord(line)
  {
    hide ScanRecord, SpanOutside;
    if ScanRecord(line).Some? {
      ScannedIsField(line, ScanRecord(line).value);
    } else if StartsWithRecord(line) {
      var r, separator :|
        IsField(r) && IsSeparator(separator) && r.prefix + "_" + (r.key + separator + r.value) <= line;
      ScanOfRecordStart(line, r, separator);
      assert false;
    }
    if line != "" {
      assert SpanOutside(line, {' ', '\n'}, MAX_STR_LEN) == 0 <==> line[0] in {' ', '\n'};
    }
  }

  /** A line of more than 63 characters is cut: its rest is read like a line of its own. */
  lemma LongLineIsCut(file: string)
    requires |file| > 63 && '\n' !in file[..63] && NUL !in file[..63]
    ensures Lines(file) == [file[..63]] + Lines(file[63..])
  {
    assert forall i :: 0 <= i < 63 ==> file[i] == file[..63][i];
    SpanOutsideIs(file, {'\n'}, MAX_STR_LEN - 1, 63);
    hide SpanOutside;
  }
}
