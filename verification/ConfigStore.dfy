/** The configuration store (sensors_config.c): a linked list of entries, and values parsed in place. */
module ConfigStore {
  import opened Options
  import opened CText
  import opened ConfigText

  const SIZEOF_INT := 4

  // ---- values ----

  /** The next token of strtok: its start and end; the end is the length when there is none. */
  function TokenStart(s: string, pos: nat): (n: nat)
    requires pos <= |s|
    ensures pos <= n <= |s|
    ensures forall i :: pos <= i < n ==> s[i] == ','
    ensures n < |s| ==> s[n] != ','
    decreases |s| - pos
  {
    if pos < |s| && s[pos] == ',' then TokenStart(s, pos + 1) else pos
  }

  function TokenEnd(s: string, pos: nat): (n: nat)
    requires pos <= |s|
    ensures pos <= n <= |s|
    ensures forall i :: pos <= i < n ==> s[i] != ','
    ensures n < |s| ==> s[n] == ','
    decreases |s| - pos
  {
    if pos < |s| && s[pos] != ',' then TokenEnd(s, pos + 1) else pos
  }

  /** The comma separated tokens from a position on; empty ones are skipped. */
  function TokensFrom(s: string, pos: nat): seq<string>
    requires pos <= |s|
    decreases |s| - pos
  {
    var i := TokenStart(s, pos);
    if i == |s| then [] else
    var j := TokenEnd(s, i);
    [s[i..j]] + TokensFrom(s, if j < |s| then j + 1 else j)
  }

  function Tokens(s: string): seq<string> {
    TokensFrom(s, 0)
  }

  // ---- what the tokens of a value are ----

  /** The characters from i to j are a longest run without comma. */
  predicate IsCommaFreeRun(s: string, i: nat, j: nat) {
    && i < j <= |s| && (forall k :: i <= k < j ==> s[k] != ',')
    && (i == 0 || s[i - 1] == ',') && (j == |s| || s[j] == ',')
  }

  /** Some positions from pos on that are not commas all lie in one of the intervals. */
  ghost predicate Covers(s: string, pos: nat, starts: seq<nat>, ends: seq<nat>)
    requires |starts| == |ends|
  {
    forall i :: pos <= i < |s| && s[i] != ',' ==> exists k :: 0 <= k < |starts| && starts[k] <= i < ends[k]
  }

  /** The intervals are longest runs without comma, in order from pos on, and hold the tokens. */
  ghost predicate AreRuns(s: string, pos: nat, starts: seq<nat>, ends: seq<nat>, tokens: seq<string>) {
    && |starts| == |ends| == |tokens|
    && (forall k :: 0 <= k < |starts| ==>
          pos <= starts[k] && IsCommaFreeRun(s, starts[k], ends[k]) && tokens[k] == s[starts[k]..ends[k]])
    && forall k, m :: 0 <= k < m < |starts| ==> ends[k] < starts[m]
  }

  /** The tokens are exactly the longest runs without comma, in order. */
  lemma {:induction false} TokensAreRuns(s: string, pos: nat) returns (starts: seq<nat>, ends: seq<nat>)
    requires pos <= |s| && (pos == 0 || pos == |s| || s[pos - 1] == ',')
    ensures |starts| == |ends| && Covers(s, pos, starts, ends)
    ensures AreRuns(s, pos, starts, ends, TokensFrom(s, pos))
    decreases |s| - pos
  {
    hide TokensFrom, Covers, AreRuns, IsCommaFreeRun;
    TokensFromStep(s, pos);
    var i := TokenStart(s, pos);
    if i == |s| {
      starts, ends := [], [];
      NothingToCover(s, pos);
      NoRuns(s, pos);
    } else {
      var j := TokenEnd(s, i);
      var next := if j < |s| then j + 1 else j;
      FirstRun(s, pos);
      hide TokenStart, TokenEnd;
      var rest, restEnds := TokensAreRuns(s, next);
      starts, ends := [i] + rest, [j] + restEnds;
      CoversOneMore(s, pos, i, j, rest, restEnds);
      RunsOneMore(s, pos, i, j, rest, restEnds, TokensFrom(s, next));
    }
  }

  lemma NoRuns(s: string, pos: nat)
    ensures AreRuns(s, pos, [], [], [])
  {
  }

  lemma RunsOneMore(
      s: string, pos: nat, i: nat, j: nat, starts: seq<nat>, ends: seq<nat>, tokens: seq<string>)
    requires pos <= i && IsCommaFreeRun(s, i, j)
    requires AreRuns(s, if j < |s| then j + 1 else j, starts, ends, tokens)
    ensures AreRuns(s, pos, [i] + starts, [j] + ends, [s[i..j]] + tokens)
  {
    var next := if j < |s| then j + 1 else j;
    forall k | 0 <= k < |starts|
      ensures next <= starts[k] < |s| && IsCommaFreeRun(s, starts[k], ends[k]) && tokens[k] == s[starts[k]..ends[k]]
    {
    }
    hide IsCommaFreeRun;
  }

  lemma FirstRun(s: string, pos: nat)
    requires pos <= |s| && (pos == 0 || pos == |s| || s[pos - 1] == ',') && TokenStart(s, pos) < |s|
    ensures var i := TokenStart(s, pos);
            IsCommaFreeRun(s, i, TokenEnd(s, i))
  {
    var i := TokenStart(s, pos);
    assert i > pos ==> s[i - 1] == ',';
  }

  lemma NothingToCover(s: string, pos: nat)
    requires pos <= |s| && TokenStart(s, pos) == |s|
    ensures Covers(s, pos, [], [])
  {
  }

  lemma CoversOneMore(s: string, pos: nat, i: nat, j: nat, starts: seq<nat>, ends: seq<nat>)
    requires pos <= i < j <= |s| && (forall k :: pos <= k < i ==> s[k] == ',') && (j < |s| ==> s[j] == ',')
    requires |starts| == |ends| && Covers(s, if j < |s| then j + 1 else j, starts, ends)
    ensures Covers(s, pos, [i] + starts, [j] + ends)
  {
    var a, b := [i] + starts, [j] + ends;
    forall n | pos <= n < |s| && s[n] != ','
      ensures exists k :: 0 <= k < |a| && a[k] <= n < b[k]
    {
      if n < j {
        assert a[0] <= n < b[0];
      } else {
        var k :| 0 <= k < |starts| && starts[k] <= n < ends[k];
        assert a[k + 1] == starts[k] && b[k + 1] == ends[k];
      }
    }
  }

  /** The first n numbers. */
  function Numbers(tokens: seq<string>, n: nat): seq<int>
    requires n <= |tokens|
  {
    seq(n, i requires 0 <= i < n => Atoi(tokens[i]))
  }

  /** How many slots of the output are written: one more than asked for when there are too many tokens. */
  function SlotsWritten(tokens: seq<string>, outSize: nat): nat {
    if |tokens| <= outSize then |tokens| else outSize + 1
  }

  /** `strtok_r` with a comma, on a value of which the part from pos on is untouched. The token ends in a terminator
    written over its delimiter. */
  method StrTok(value: array<char>, ghost s: string, pos: nat) returns (found: bool, start: nat, end: nat, pos': nat)
    requires |s| < value.Length && pos <= |s| && NUL !in s
    requires value[pos..|s|] == s[pos..] && value[|s|] == NUL
    modifies value
    ensures start == TokenStart(s, pos) && found == (start < |s|)
    ensures found ==> end == TokenEnd(s, start) && start < end <= |s| && pos' == if end < |s| then end + 1 else end
    ensures found ==> value[start..end] == s[start..end] && value[pos'..|s|] == s[pos'..] && value[|s|] == NUL
    ensures value[|s| + 1..] == old(value[|s| + 1..]) && (!found ==> value[..] == old(value[..]))
  {
    start := pos;
    assert forall i :: pos <= i < |s| ==> value[i] == s[i];
    while value[start] == ','
      invariant pos <= start <= |s| && TokenStart(s, pos) == TokenStart(s, start)
      decreases |s| - start
    {
      start := start + 1;
    }
    end, pos', found := start, start, false;
    if value[start] == NUL {
      return;
    }
    found := true;
    while value[end] != NUL && value[end] != ','
      invariant start <= end <= |s| && TokenEnd(s, start) == TokenEnd(s, end)
      decreases |s| - end
    {
      end := end + 1;
    }
    pos' := end;
    if value[end] == ',' {
      value[end] := NUL;
      pos' := end + 1;
    }
    assert forall k :: start <= k < end ==> value[k] == s[k];
    assert forall k :: pos' <= k < |s| ==> value[k] == s[k];
    SliceAgrees(value[..], s, start, end);
    SliceAgrees(value[..], s, pos', |s|);
    assert value[start..end] == value[..][start..end] && value[pos'..|s|] == value[..][pos'..|s|];
  }

  lemma SliceAgrees(a: seq<char>, b: seq<char>, i: nat, j: nat)
    requires i <= j <= |a| && j <= |b| && forall k :: i <= k < j ==> a[k] == b[k]
    ensures a[i..j] == b[i..j]
  {
  }

  /** `strlen`. */
  method StringLength(value: array<char>) returns (n: nat)
    requires NUL in value[..]
    ensures n == StrLen(value[..]) && n < value.Length
  {
    n := 0;
    while value[n] != NUL
      invariant n < value.Length && forall i :: 0 <= i < n ==> value[i] != NUL
      decreases value.Length - n
    {
      n := n + 1;
    }
  }

  /** `memcpy` of a saved string back over the value. */
  method CopyBack(value: array<char>, restore: seq<char>)
    requires |restore| <= value.Length
    modifies value
    ensures value[..] == restore + old(value[|restore|..])
  {
    for k := 0 to |restore|
      invariant forall i :: 0 <= i < k ==> value[i] == restore[i]
      invariant forall i :: k <= i < value.Length ==> value[i] == old(value[i])
    {
      value[k] := restore[k];
    }
  }

  /** One call of `strtok_r`, with the token read out of the value. */
  method NextToken(value: array<char>, ghost s: string, pos: nat) returns (token: Option<string>, pos': nat)
    requires |s| < value.Length && pos <= |s| && NUL !in s
    requires value[pos..|s|] == s[pos..] && value[|s|] == NUL
    modifies value
    ensures value[|s| + 1..] == old(value[|s| + 1..])
    ensures token == None ==> TokensFrom(s, pos) == []
    ensures token.Some? ==> pos' <= |s| && TokensFrom(s, pos) == [token.value] + TokensFrom(s, pos')
    ensures token.Some? ==> value[pos'..|s|] == s[pos'..] && value[|s|] == NUL
  {
    hide TokensFrom, TokenStart, TokenEnd;
    var found, start, end, next := StrTok(value, s, pos);
    TokensFromStep(s, pos);
    pos' := next;
    token := if found then Some(value[start..end]) else None;
  }

  lemma TokensFromStep(s: string, pos: nat)
    requires pos <= |s|
    ensures var i := TokenStart(s, pos);
            if i == |s| then TokensFrom(s, pos) == [] else
            var j := TokenEnd(s, i);
            TokensFrom(s, pos) == [s[i..j]] + TokensFrom(s, if j < |s| then j + 1 else j)
  {
  }

  /** The loop over the tokens, which overwrites delimiters in the value. */
  method ConvertTokens(value: array<char>, ghost s: string, out: array<int>, outSize: nat) returns (rv: int)
    requires |s| < value.Length && value[..|s|] == s && value[|s|] == NUL && NUL !in s
    requires SlotsWritten(Tokens(s), outSize) <= out.Length
    modifies value, out
    ensures value[|s| + 1..] == old(value[|s| + 1..])
    ensures var n := SlotsWritten(Tokens(s), outSize);
            && rv == (if |Tokens(s)| <= outSize then 0 else -1)
            && out[..] == Numbers(Tokens(s), n) + old(out[n..])
  {
    hide Atoi, TokensFrom;
    ghost var tokens := Tokens(s);
    var token, pos: nat := NextToken(value, s, 0);
    var i: nat := 0;
    while token.Some?
      invariant value[|s| + 1..] == old(value[|s| + 1..])
      invariant i <= |tokens| && i <= outSize && i <= out.Length
      invariant forall k :: 0 <= k < i ==> out[k] == Atoi(tokens[k])
      invariant forall k :: i <= k < out.Length ==> out[k] == old(out[k])
      invariant token == None ==> i == |tokens|
      invariant token.Some? ==> pos <= |s| && tokens[i..] == [token.value] + TokensFrom(s, pos)
      invariant token.Some? ==> value[pos..|s|] == s[pos..] && value[|s|] == NUL
      decreases |tokens| - i
    {
      assert tokens[i] == token.value && tokens[i + 1..] == TokensFrom(s, pos);
      out[i] := Atoi(token.value);
      i := i + 1;
      if i > outSize {
        return -1;
      }
      token, pos := NextToken(value, s, pos);
    }
    return 0;
  }

  /** The TYPE_ARRAY_INT case of `parse_value`. The token buffer is the stored value itself, copied back before every
    return. The output receives one number more than asked for before the failure is noticed. A terminated value fits
    MAX_STR_LEN, so the length test before the copy never fails. */
  method ParseArray(value: array<char>, out: array<int>, outSize: nat) returns (rv: int)
    requires value.Length == MAX_STR_LEN && NUL in value[..]
    requires SlotsWritten(Tokens(CString(value[..])), outSize) <= out.Length
    modifies value, out
    ensures value[..] == old(value[..])
    ensures var tokens := Tokens(CString(old(value[..])));
            var n := SlotsWritten(tokens, outSize);
            && rv == (if |tokens| <= outSize then 0 else -1)
            && out[..] == Numbers(tokens, n) + old(out[n..])
  {
    hide Tokens, Numbers;
    var bytes := StringLength(value);
    bytes := bytes + 1;
    var restore := value[..bytes];
    assert CString(value[..]) == value[..bytes - 1];
    rv := ConvertTokens(value, value[..bytes - 1], out, outSize);
    CopyBack(value, restore);
  }

  // ---- the list ----

  datatype ValueType = TYPE_STRING | TYPE_ARRAY_INT | TYPE_INT

  class ConfigEntry {
    const prefix: string
    const key: string
    const value: array<char>
    var next: ConfigEntry?

    constructor (prefix: string, key: string, value: string)
      requires |value| < MAX_STR_LEN && NUL !in value
      ensures this.prefix == prefix && this.key == key && next == null && fresh(this.value)
      ensures this.value.Length == MAX_STR_LEN && NUL in this.value[..] && CString(this.value[..]) == value
    {
      this.prefix, this.key, this.next := prefix, key, null;
      this.value := new char[MAX_STR_LEN](i => if 0 <= i < |value| then value[i] else NUL);
      new;
      assert this.value[|value|] == NUL;
      StrLenIs(this.value[..], |value|);
    }

    ghost function Contents(): Record
      reads value
    {
      Record(prefix, key, CString(value[..]))
    }
  }

  /** The nodes form a list from the head on, and every value is terminated. */
  ghost predicate IsList(head: ConfigEntry?, nodes: seq<ConfigEntry>)
    reads nodes, set i | 0 <= i < |nodes| :: nodes[i].value
  {
    && head == (if nodes == [] then null else nodes[0])
    && (forall i, j :: 0 <= i < j < |nodes| ==> nodes[i] != nodes[j])
    && (forall i :: 0 <= i < |nodes| ==> nodes[i].next == if i + 1 < |nodes| then nodes[i + 1] else null)
    && (forall i :: 0 <= i < |nodes| ==> nodes[i].value.Length == MAX_STR_LEN && NUL in nodes[i].value[..])
  }

  lemma ListNext(head: ConfigEntry?, nodes: seq<ConfigEntry>, k: nat)
    requires IsList(head, nodes) && k < |nodes|
    ensures nodes[k].next == if k + 1 < |nodes| then nodes[k + 1] else null
  {
  }

  lemma ListShape(head: ConfigEntry?, nodes: seq<ConfigEntry>)
    requires IsList(head, nodes)
    ensures head == null <==> nodes == []
    ensures nodes != [] ==> head == nodes[0] && nodes[|nodes| - 1].next == null
    ensures forall i :: 0 <= i < |nodes| - 1 ==> nodes[i].next == nodes[i + 1] && nodes[i] != nodes[|nodes| - 1]
    ensures forall i, j :: 0 <= i < j < |nodes| ==> nodes[i] != nodes[j]
    ensures forall x :: x in nodes ==> x.value.Length == MAX_STR_LEN && NUL in x.value[..]
  {
    if nodes != [] {
      ListNext(head, nodes, |nodes| - 1);
    }
  }

  /** A node linked behind the last one. */
  lemma AppendedNode(head: ConfigEntry?, nodes: seq<ConfigEntry>, node: ConfigEntry)
    requires if nodes == [] then head == node else head == nodes[0] && nodes[|nodes| - 1].next == node
    requires forall i, j :: 0 <= i < j < |nodes| ==> nodes[i] != nodes[j]
    requires forall i :: 0 <= i < |nodes| - 1 ==> nodes[i].next == nodes[i + 1]
    requires node !in nodes && node.next == null
    requires forall x :: x in nodes ==> x.value.Length == MAX_STR_LEN && NUL in x.value[..]
    requires node.value.Length == MAX_STR_LEN && NUL in node.value[..]
    ensures IsList(head, nodes + [node])
  {
    var all := nodes + [node];
    assert forall i :: 0 <= i < |nodes| ==> all[i] == nodes[i] && nodes[i] in nodes;
  }

  function AllOf(nodes: seq<ConfigEntry>): set<ConfigEntry> {
    set x | x in nodes
  }

  ghost function RecordsIn(nodes: seq<ConfigEntry>): (c: seq<Record>)
    reads set i | 0 <= i < |nodes| :: nodes[i].value
    ensures |c| == |nodes| && forall i :: 0 <= i < |nodes| ==> c[i] == nodes[i].Contents()
  {
    if nodes == [] then [] else RecordsIn(nodes[..|nodes| - 1]) + [nodes[|nodes| - 1].Contents()]
  }

  lemma SameRecords(nodes: seq<ConfigEntry>, c: seq<Record>)
    requires |c| == |nodes| && forall i :: 0 <= i < |nodes| ==> nodes[i].Contents() == c[i]
    ensures RecordsIn(nodes) == c
  {
    hide RecordsIn;
  }

  lemma AppendedRecord(nodes: seq<ConfigEntry>, node: ConfigEntry)
    ensures RecordsIn(nodes + [node]) == RecordsIn(nodes) + [node.Contents()]
  {
    assert (nodes + [node])[..|nodes|] == nodes;
  }

  /** The comparison of `sensors_config_get_key`: both stored names are prefixes of those asked for. */
  predicate Matches(r: Record, prefix: string, key: string) {
    r.prefix <= prefix && r.key <= key
  }

  /** The position of the entry found, or the length. */
  function FirstMatch(c: seq<Record>, prefix: string, key: string): (i: nat)
    ensures i <= |c| && (i < |c| ==> Matches(c[i], prefix, key))
    ensures forall k :: 0 <= k < i ==> !Matches(c[k], prefix, key)
  {
    if c == [] || Matches(c[0], prefix, key) then 0 else 1 + FirstMatch(c[1..], prefix, key)
  }

  /** The value found under some names. */
  function Lookup(c: seq<Record>, prefix: string, key: string): Option<string> {
    var i := FirstMatch(c, prefix, key);
    if i < |c| then Some(c[i].value) else None
  }

  /** The value found in a store that was read from a file. */
  function LookupInFile(file: string, prefix: string, key: string): Option<string> {
    Lookup(RecordsOf(Lines(file)), prefix, key)
  }

  class Store {
    var head: ConfigEntry?
    ghost var nodes: seq<ConfigEntry>
    /** The entries that were freed; the head may still point to them. */
    ghost var freed: set<ConfigEntry>

    ghost predicate Valid()
      reads this, nodes, set i | 0 <= i < |nodes| :: nodes[i].value
    {
      freed == {} && IsList(head, nodes)
    }

    ghost function Contents(): seq<Record>
      reads this, set i | 0 <= i < |nodes| :: nodes[i].value
    {
      RecordsIn(nodes)
    }

    constructor ()
      ensures Valid() && nodes == [] && Contents() == []
    {
      head, nodes, freed := null, [], {};
    }

    /** The walk of `insert_entry` to the last entry. */
    method Last(ghost nodes: seq<ConfigEntry>) returns (p: ConfigEntry)
      requires IsList(head, nodes) && nodes != []
      ensures p == nodes[|nodes| - 1]
    {
      ghost var k := 0;
      p := head;
      while p.next != null
        invariant 0 <= k < |nodes| && p == nodes[k]
        decreases |nodes| - k
      {
        ListNext(head, nodes, k);
        p := p.next;
        k := k + 1;
      }
      ListNext(head, nodes, k);
    }

    /** `insert_entry`: the entry goes to the end. */
    method Insert(entry: ConfigEntry)
      requires Valid() && entry !in nodes && entry.value.Length == MAX_STR_LEN && NUL in entry.value[..]
      modifies this, entry`next, set x | x in nodes :: x`next
      ensures Valid() && nodes == old(nodes) + [entry]
      ensures Contents() == old(Contents()) + [old(entry.Contents())]
    {
      hide RecordsIn, CString, IsList;
      ghost var list := nodes;
      ListShape(head, list);
      AppendedRecord(list, entry);
      nodes := list + [entry];
      if head == null {
        head := entry;
        head.next := null;
        AppendedNode(head, list, entry);
        return;
      }
      var p := Last(list);
      assert p in old(nodes);
      p.next := entry;
      entry.next := null;
      AppendedNode(head, list, entry);
    }

    /** The walk of `sensors_config_get_key`. */
    method Find(prefix: string, key: string) returns (p: ConfigEntry?)
      requires Valid()
      ensures var i := FirstMatch(Contents(), prefix, key);
              p == if i < |nodes| then nodes[i] else null
    {
      hide RecordsIn, CString;
      ghost var k := 0;
      p := head;
      while p != null
        invariant 0 <= k <= |nodes| && p == (if k < |nodes| then nodes[k] else null)
        invariant forall i :: 0 <= i < k ==> !Matches(Contents()[i], prefix, key)
        decreases |nodes| - k
      {
        if p.prefix <= prefix && p.key <= key {
          FirstMatchIs(Contents(), prefix, key, k);
          return;
        }
        p := p.next;
        k := k + 1;
      }
      FirstMatchIs(Contents(), prefix, key, k);
    }

    /** `sensors_config_destroy`: every entry is freed, and the head is left as it is. */
    method Destroy()
      requires Valid()
      modifies this`freed
      ensures freed == AllOf(nodes)
    {
      hide RecordsIn;
      ghost var k := 0;
      var p := head;
      while p != null
        invariant k <= |nodes| && p == (if k < |nodes| then nodes[k] else null)
        invariant freed == AllOf(nodes[..k]) && IsList(head, nodes)
        decreases |nodes| - k
      {
        ListNext(head, nodes, k);
        var next := p.next;
        freed := freed + {p};
        assert nodes[..k + 1] == nodes[..k] + [p];
        p := next;
        k := k + 1;
      }
      assert nodes[..k] == nodes;
    }

    /** `sensors_config_read` on the text of a file. A malformed line frees the list; the code relies on no entry being
      touched after that. */
    method Read(file: string) returns (rv: int)
      requires Valid() && IsDefined(Lines(file), |nodes|)
      modifies this, set x | x in nodes :: x`next
      ensures fresh(set x | x in nodes && x !in old(nodes))
      ensures rv == if AnyMalformed(Lines(file)) then -1 else 0
      ensures freed == if Frees(Lines(file), |old(nodes)|) then AllOf(nodes) else {}
      ensures freed == {} ==> Valid() && Contents() == old(Contents()) + RecordsOf(Lines(file))
    {
      hide Contents, IsList, RecordsIn, ScanRecord, LineLength, CString, Lines, RecordsOf, RecordOfLine, IsMalformed;
      hide AnyMalformed, NothingToStore, IsDefined, Frees, AllOf;
      rv := 0;
      var at := 0;
      ghost var lines := Lines(file);
      ghost var rest := lines;
      assert file[0..] == file;
      while at < |file|
        invariant 0 <= at <= |file| && rest == Lines(file[at..])
        invariant freed == {} ==> Valid()
        invariant freed == {} || freed == AllOf(nodes)
        invariant forall x :: x in nodes ==> x in old(nodes) || fresh(x)
        invariant if freed != {} then NothingToStore(rest) else IsDefined(rest, |nodes|)
        invariant Frees(lines, |old(nodes)|) == (freed != {} || Frees(rest, |nodes|))
        invariant rv == -1 || rv == 0
        invariant AnyMalformed(lines) == (rv == -1 || AnyMalformed(rest))
        invariant freed == {} ==> Contents() + RecordsOf(rest) == old(Contents()) + RecordsOf(lines)
        decreases |file| - at
      {
        var n := LineLength(file[at..]);
        var line := CString(file[at..][..n]);
        FirstLineOf(file[at..]);
        assert file[at..][n..] == file[at + n..];
        RecordsOfStep(rest);
        FirstLine(rest, |nodes|);
        Regroup(Contents(), RecordOfLine(line), RecordsOf(rest[1..]));
        rest := rest[1..];
        at := at + n;
        var malformed := ReadLine(line);
        if malformed {
          rv := -1;
        }
      }
      FirstLineOf(file[at..]);
      EmptyRecords(rest);
      NoLines(|nodes|);
    }

    /** The body of the reading loop: comments and blank lines are skipped. */
    method ReadLine(line: string) returns (malformed: bool)
      requires |line| < MAX_STR_LEN && NUL !in line
      requires if freed != {} then !IsMalformed(line) && RecordOfLine(line) == [] else Valid()
      modifies this, set x | x in nodes :: x`next
      ensures malformed == IsMalformed(line)
      ensures freed == if malformed then AllOf(old(nodes)) else old(freed)
      ensures freed == {} <==> old(freed) == {} && !(malformed && old(nodes) != [])
      ensures malformed ==> nodes == old(nodes)
      ensures fresh(set x | x in nodes && x !in old(nodes))
      ensures old(freed) != {} ==> nodes == old(nodes)
      ensures freed == {} ==> Valid() && Contents() == old(Contents()) + RecordOfLine(line)
      ensures old(freed) == {} ==> |nodes| == |old(nodes)| + |RecordOfLine(line)|
    {
      hide RecordsIn, IsList, ScanRecord, CString;
      malformed := false;
      if line != "" && line[0] == '#' {
        return;
      }
      var r := ScanRecord(line);
      if r.Some? {
        ScannedValueFits(line, r.value);
        var entry := new ConfigEntry(r.value.prefix, r.value.key, r.value.value);
        Insert(entry);
      } else if HasWord(line) {
        Destroy();
        assert nodes != [] ==> nodes[0] in freed;
        malformed := true;
      }
    }

    /** `sensors_config_get_key`. */
    method GetKey(prefix: string, key: string, valueType: ValueType, outSize: nat, out: array<int>)
      returns (rv: int, text: string, number: int)
      requires Valid()
      requires var found := Lookup(Contents(), prefix, key);
               found.Some? && valueType == TYPE_ARRAY_INT ==>
                 SlotsWritten(Tokens(found.value), outSize) <= out.Length
      modifies out, set i | 0 <= i < |nodes| :: nodes[i].value
      ensures Valid() && nodes == old(nodes) && Contents() == old(Contents())
      ensures match Lookup(Contents(), prefix, key)
              case None => rv == -1 && out[..] == old(out[..])
              case Some(value) => ParsedAs(value, valueType, outSize, rv, text, number, old(out[..]), out[..])
    {
      hide Tokens, Numbers, Atoi, StrLen, ParsedAs, RecordsIn, SlotsWritten, CString;
      rv, text, number := -1, "", 0;
      var p := Find(prefix, key);
      if p == null {
        return;
      }
      ghost var c := Contents();
      rv, text, number := ParseValue(p.value, valueType, outSize, out);
      forall i | 0 <= i < |nodes|
        ensures nodes[i].value[..] == old(nodes[i].value[..])
      {
      }
      assert IsList(head, nodes);
      hide IsList;
      SameRecords(nodes, c);
    }
  }

  // ---- files ----

  /** The lines free a list that holds n entries before: a malformed line comes after the first entry. */
  predicate Frees(lines: seq<string>, n: nat) {
    lines != [] &&
    if IsMalformed(lines[0]) then n > 0 || Frees(lines[1..], n) else Frees(lines[1..], n + |RecordOfLine(lines[0])|)
  }

  /** Lines that touch no entry: no records, and nothing malformed. */
  predicate NothingToStore(lines: seq<string>) {
    forall i :: 0 <= i < |lines| ==> !IsMalformed(lines[i]) && RecordOfLine(lines[i]) == []
  }

  /** No line touches an entry of the list, of n entries before, after a malformed line freed it. */
  predicate IsDefined(lines: seq<string>, n: nat) {
    lines == [] ||
    if IsMalformed(lines[0]) && n > 0 then NothingToStore(lines[1..])
    else IsDefined(lines[1..], n + |RecordOfLine(lines[0])|)
  }

  predicate AnyMalformed(lines: seq<string>) {
    exists i :: 0 <= i < |lines| && IsMalformed(lines[i])
  }

  /** What the first line does. */
  lemma FirstLine(lines: seq<string>, n: nat)
    requires lines != []
    ensures var malformed, stored := IsMalformed(lines[0]), |RecordOfLine(lines[0])|;
            && (malformed ==> stored == 0)
            && AnyMalformed(lines) == (malformed || AnyMalformed(lines[1..]))
            && Frees(lines, n) == ((malformed && n > 0) || Frees(lines[1..], n + stored))
            && (NothingToStore(lines) ==> !malformed && stored == 0 && NothingToStore(lines[1..]))
            && (IsDefined(lines, n) ==>
                  if malformed && n > 0 then NothingToStore(lines[1..]) else IsDefined(lines[1..], n + stored))
  {
    assert IsMalformed(lines[0]) ==> RecordOfLine(lines[0]) == [];
    hide IsMalformed, RecordOfLine;
    assert forall i :: 0 < i < |lines| ==> lines[i] == lines[1..][i - 1];
    assert forall i :: 0 <= i < |lines[1..]| ==> lines[1..][i] == lines[i + 1];
  }

  lemma Regroup(a: seq<Record>, b: seq<Record>, c: seq<Record>)
    ensures a + (b + c) == a + b + c
  {
  }

  lemma NoLines(n: nat)
    ensures !AnyMalformed([]) && !Frees([], n)
  {
  }

  /** A file without malformed lines frees nothing. */
  lemma {:induction false} WellFormedFile(lines: seq<string>, n: nat)
    requires forall line :: line in lines ==> !IsMalformed(line)
    ensures IsDefined(lines, n) && !Frees(lines, n)
  {
    hide IsMalformed, RecordOfLine;
    if lines == [] {
    } else {
      assert !IsMalformed(lines[0]) by {
        assert lines[0] in lines;
      }
      forall line | line in lines[1..]
        ensures !IsMalformed(line)
      {
        assert line in lines;
      }
      WellFormedFile(lines[1..], n + |RecordOfLine(lines[0])|);
    }
  }

  predicate SameNames(a: seq<Record>, b: seq<Record>) {
    |a| == |b| && forall i :: 0 <= i < |a| ==> a[i].prefix == b[i].prefix && a[i].key == b[i].key
  }

  /** Every documented file that differs only in values, separators, comments and blank lines yields the value of its
    entry i under the names of that entry. */
  ghost predicate ValueIsFound(doc: seq<DocLine>, i: nat)
    requires i < |EntriesOf(doc)|
  {
    forall d :: IsDocument(d) && SameNames(EntriesOf(d), EntriesOf(doc)) ==>
      LookupInFile(FileOf(d), EntriesOf(d)[i].prefix, EntriesOf(d)[i].key) == Some(EntriesOf(d)[i].value)
  }

  /** A text starts with the characters of another one. */
  predicate StartsWith(text: string, start: string) {
    |start| <= |text| && text[..|start|] == start
  }

  /** Both names asked for start with the stored ones. */
  predicate Answers(r: Record, prefix: string, key: string) {
    StartsWith(prefix, r.prefix) && StartsWith(key, r.key)
  }

  lemma MatchesIffAnswers(r: Record, prefix: string, key: string)
    ensures Matches(r, prefix, key) <==> Answers(r, prefix, key)
  {
  }

  /** Main result: looking up any names in a documented file yields the value of the first entry whose prefix and key
    the names start with, and nothing if there is none. */
  lemma LookupYieldsFirstAnswer(doc: seq<DocLine>, prefix: string, key: string)
    requires IsDocument(doc)
    ensures var c := EntriesOf(doc);
            && (forall i :: 0 <= i < |c| && Answers(c[i], prefix, key)
                            && (forall k :: 0 <= k < i ==> !Answers(c[k], prefix, key)) ==>
                  LookupInFile(FileOf(doc), prefix, key) == Some(c[i].value))
            && ((forall k :: 0 <= k < |c| ==> !Answers(c[k], prefix, key)) ==>
                  LookupInFile(FileOf(doc), prefix, key) == None)
  {
    hide IsDocument, FileOf, EntriesOf, LookupInFile, Matches, Answers, FirstMatch;
    var c := EntriesOf(doc);
    FileLookup(doc, prefix, key);
    forall k | 0 <= k < |c|
      ensures Matches(c[k], prefix, key) <==> Answers(c[k], prefix, key)
    {
      MatchesIffAnswers(c[k], prefix, key);
    }
  }

  /** An earlier entry answers to the names of entry i. */
  predicate IsHidden(c: seq<Record>, i: nat)
    requires i < |c|
  {
    exists j :: 0 <= j < i && Answers(c[j], c[i].prefix, c[i].key)
  }

  /** Main result: reading a documented file and asking for the names of an entry yields the value of that entry,
    whatever the values are, if and only if no earlier entry has names that are prefixes of them. */
  lemma ValueIsFoundIffNotHidden(doc: seq<DocLine>, i: nat)
    requires IsDocument(doc) && i < |EntriesOf(doc)|
    ensures ValueIsFound(doc, i) <==> !IsHidden(EntriesOf(doc), i)
  {
    hide IsDocument, FileOf, EntriesOf, LookupInFile;
    if IsHidden(EntriesOf(doc), i) {
      var d := HiddenValue(doc, i);
    } else {
      forall d | IsDocument(d) && SameNames(EntriesOf(d), EntriesOf(doc))
        ensures LookupInFile(FileOf(d), EntriesOf(d)[i].prefix, EntriesOf(d)[i].key) == Some(EntriesOf(d)[i].value)
      {
        NotHiddenIsFound(doc, d, i);
      }
    }
  }

  lemma HidingDependsOnNames(a: seq<Record>, b: seq<Record>, i: nat)
    requires SameNames(a, b) && i < |b|
    ensures |a| == |b| && (IsHidden(a, i) <==> IsHidden(b, i))
  {
    hide StartsWith;
    forall j | 0 <= j < i
      ensures Answers(a[j], a[i].prefix, a[i].key) <==> Answers(b[j], b[i].prefix, b[i].key)
    {
    }
  }

  lemma OwnNamesAnswer(r: Record)
    ensures Answers(r, r.prefix, r.key)
  {
  }

  lemma NotHiddenIsFound(doc: seq<DocLine>, d: seq<DocLine>, i: nat)
    requires IsDocument(d) && SameNames(EntriesOf(d), EntriesOf(doc))
    requires i < |EntriesOf(doc)| && !IsHidden(EntriesOf(doc), i)
    ensures LookupInFile(FileOf(d), EntriesOf(d)[i].prefix, EntriesOf(d)[i].key) == Some(EntriesOf(d)[i].value)
  {
    hide IsDocument, FileOf, EntriesOf, LookupInFile, SameNames, StartsWith;
    var c := EntriesOf(d);
    HidingDependsOnNames(c, EntriesOf(doc), i);
    LookupYieldsFirstAnswer(d, c[i].prefix, c[i].key);
    OwnNamesAnswer(c[i]);
    hide Answers;
  }

  /** Reading a documented file and looking up names is looking them up among the entries. */
  lemma FileLookup(doc: seq<DocLine>, prefix: string, key: string)
    requires IsDocument(doc)
    ensures LookupInFile(FileOf(doc), prefix, key) == Lookup(EntriesOf(doc), prefix, key)
  {
    hide IsDocument, FileOf, EntriesOf, RecordsOf, Lines;
    FileRoundTrip(doc);
  }

  /** A file with the same names in which the value found belongs to another entry. */
  lemma HiddenValue(doc: seq<DocLine>, i: nat) returns (d: seq<DocLine>)
    requires IsDocument(doc) && i < |EntriesOf(doc)| && IsHidden(EntriesOf(doc), i)
    ensures IsDocument(d) && SameNames(EntriesOf(d), EntriesOf(doc))
    ensures LookupInFile(FileOf(d), EntriesOf(d)[i].prefix, EntriesOf(d)[i].key) != Some(EntriesOf(d)[i].value)
  {
    hide EntriesOf, FileOf, LookupInFile, IsDocLine;
    var c := EntriesOf(doc);
    var r := seq(|c|, k requires 0 <= k < |c| => Record(c[k].prefix, c[k].key, if k == i then "1" else "0"));
    forall k | 0 <= k < |c|
      ensures IsDocLine(Entry(r[k], " "))
    {
      var separator := EntryIsDocumented(doc, k);
      ShortEntry(c[k], separator, r[k]);
    }
    d := seq(|c|, k requires 0 <= k < |c| => Entry(r[k], " "));
    PlainEntries(d, r);
    FileLookup(d, r[i].prefix, r[i].key);
    var j := FirstMatch(r, r[i].prefix, r[i].key);
    var m :| 0 <= m < i && Answers(c[m], c[i].prefix, c[i].key);
    MatchesIffAnswers(r[m], r[i].prefix, r[i].key);
    assert Matches(r[m], r[i].prefix, r[i].key);
    assert j < i && r[j].value == "0" && r[i].value == "1";
  }

  lemma ShortEntry(r: Record, separator: string, short: Record)
    requires IsDocLine(Entry(r, separator))
    requires short.prefix == r.prefix && short.key == r.key && (short.value == "0" || short.value == "1")
    ensures IsDocLine(Entry(short, " "))
  {
  }

  lemma {:induction false} PlainEntries(doc: seq<DocLine>, r: seq<Record>)
    requires |doc| == |r| && forall k :: 0 <= k < |r| ==> doc[k] == Entry(r[k], " ")
    ensures EntriesOf(doc) == r
  {
    if doc == [] {
    } else {
      PlainEntries(doc[1..], r[1..]);
    }
  }

  /** Looking up names in a file of two entries. */
  lemma LookupInTwoLines(a: Record, b: Record, doc: seq<DocLine>, prefix: string, key: string)
    requires doc == [Entry(a, " = "), Entry(b, " = ")] && IsDocument(doc)
    ensures FileOf(doc) == LineOf(a, " = ") + LineOf(b, " = ")
    ensures Answers(a, prefix, key) ==> LookupInFile(FileOf(doc), prefix, key) == Some(a.value)
    ensures !Answers(a, prefix, key) && Answers(b, prefix, key) ==>
              LookupInFile(FileOf(doc), prefix, key) == Some(b.value)
  {
    TwoLines(doc);
    TwoEntries(doc);
    hide IsDocument, EntriesOf, FileOf, LookupInFile, LineOf, Answers;
    LookupYieldsFirstAnswer(doc, prefix, key);
    var c := EntriesOf(doc);
    assert c[0] == a && c[1] == b;
  }

  /** A key axis hides the key axis_x written behind it. */
  lemma AxisHidesAxisX()
    ensures LookupInFile("accel_axis = 0\naccel_axis_x = 1\n", "accel", "axis_x") == Some("0")
  {
    hide LookupInFile, FileOf, Lookup;
    var a, b := Record("accel", "axis", "0"), Record("accel", "axis_x", "1");
    var doc := [Entry(a, " = "), Entry(b, " = ")];
    assert IsDocument(doc) && Answers(a, b.prefix, b.key);
    LookupInTwoLines(a, b, doc, b.prefix, b.key);
    hide *;
    assert LineOf(a, " = ") + LineOf(b, " = ") == "accel_axis = 0\naccel_axis_x = 1\n" by {
      AxisLines(a, b);
    }
  }

  /** The keys axis_x and axis_y do not hide each other. */
  lemma AxisYIsFound()
    ensures LookupInFile("accel_axis_x = 0\naccel_axis_y = 1\n", "accel", "axis_y") == Some("1")
  {
    hide LookupInFile, FileOf, Lookup, Answers, IsDocument, LineOf;
    var a, b := Record("accel", "axis_x", "0"), Record("accel", "axis_y", "1");
    AxisNamesDiffer(a, b);
    AxisDocument(a, b);
    TwoAxisLines(a, b);
    LookupInTwoLines(a, b, [Entry(a, " = "), Entry(b, " = ")], b.prefix, b.key);
  }

  lemma AxisDocument(a: Record, b: Record)
    requires a == Record("accel", "axis_x", "0") && b == Record("accel", "axis_y", "1")
    ensures IsDocument([Entry(a, " = "), Entry(b, " = ")])
  {
  }

  lemma AxisNamesDiffer(a: Record, b: Record)
    requires a == Record("accel", "axis_x", "0") && b == Record("accel", "axis_y", "1")
    ensures !Answers(a, b.prefix, b.key) && Answers(b, b.prefix, b.key)
  {
    assert b.key[..6][5] == 'y' && a.key[5] == 'x';
  }

  lemma TwoAxisLines(a: Record, b: Record)
    requires a == Record("accel", "axis_x", "0") && b == Record("accel", "axis_y", "1")
    ensures LineOf(a, " = ") + LineOf(b, " = ") == "accel_axis_x = 0\naccel_axis_y = 1\n"
  {
  }

  lemma AxisLines(a: Record, b: Record)
    requires a == Record("accel", "axis", "0") && b == Record("accel", "axis_x", "1")
    ensures LineOf(a, " = ") + LineOf(b, " = ") == "accel_axis = 0\naccel_axis_x = 1\n"
  {
  }

  lemma TwoLines(doc: seq<DocLine>)
    requires |doc| == 2
    ensures FileOf(doc) == TextOf(doc[0]) + TextOf(doc[1])
  {
    hide TextOf;
    var t := TextLines(doc);
    assert t[1..] == [TextOf(doc[1])] && t[1..][1..] == [];
    assert Concat(t) == t[0] + Concat(t[1..]) && Concat(t[1..]) == t[1] + Concat([]);
  }

  lemma TwoEntries(doc: seq<DocLine>)
    requires |doc| == 2 && doc[0].Entry? && doc[1].Entry?
    ensures EntriesOf(doc) == [doc[0].record, doc[1].record]
  {
    assert EntriesOf(doc[1..]) == [doc[1].record] + EntriesOf(doc[1..][1..]);
    assert doc[1..][1..] == [];
  }

  /** What a read of a value returns: the code, the text or the number, and the output array before and after. */
  ghost predicate ParsedAs(value: string, valueType: ValueType, outSize: nat, rv: int, text: string, number: int,
                           before: seq<int>, after: seq<int>)
  {
    match valueType
    case TYPE_STRING =>
      rv == (if outSize < |value| + 1 then -1 else 0) && (rv == 0 ==> text == value) && after == before
    case TYPE_INT =>
      rv == (if outSize < SIZEOF_INT then -1 else 0) && (rv == 0 ==> number == Atoi(value)) && after == before
    case TYPE_ARRAY_INT =>
      var tokens := Tokens(value);
      var n := SlotsWritten(tokens, outSize);
      rv == (if |tokens| <= outSize then 0 else -1) && n <= |before| && after == Numbers(tokens, n) + before[n..]
  }

  /** `parse_value`. */
  method ParseValue(value: array<char>, valueType: ValueType, outSize: nat, out: array<int>)
    returns (rv: int, text: string, number: int)
    requires value.Length == MAX_STR_LEN && NUL in value[..]
    requires valueType == TYPE_ARRAY_INT ==> SlotsWritten(Tokens(CString(value[..])), outSize) <= out.Length
    modifies value, out
    ensures value[..] == old(value[..])
    ensures ParsedAs(CString(value[..]), valueType, outSize, rv, text, number, old(out[..]), out[..])
  {
    hide Tokens, Numbers, Atoi, StrLen, SlotsWritten;
    rv, text, number := -1, "", 0;
    match valueType
    case TYPE_STRING =>
      var bytes := StringLength(value);
      if outSize < bytes + 1 {
        return;
      }
      text := value[..bytes];
      rv := 0;
    case TYPE_INT =>
      if outSize < SIZEOF_INT {
        return;
      }
      var bytes := StringLength(value);
      number := Atoi(value[..bytes]);
      rv := 0;
    case TYPE_ARRAY_INT =>
      rv := ParseArray(value, out, outSize);
      assert old(out[..])[SlotsWritten(Tokens(CString(old(value[..]))), outSize)..]
          == old(out[SlotsWritten(Tokens(CString(value[..])), outSize)..]);
  }

  /** A scanned value has no terminator in it and fits its buffer. */
  lemma ScannedValueFits(line: string, r: Record)
    requires ScanRecord(line) == Some(r) && |line| < MAX_STR_LEN && NUL !in line
    ensures |r.value| < MAX_STR_LEN && NUL !in r.value
  {
    ScannedIsField(line, r);
    hide ScanRecord, IsField, IsSeparator;
    var separator :| IsSeparator(separator) && r.prefix + "_" + (r.key + separator + r.value) <= line;
    var front := r.prefix + "_" + (r.key + separator);
    assert r.prefix + "_" + (r.key + separator + r.value) == front + r.value;
    PartOfLine(front, r.value, line);
  }

  lemma PartOfLine(a: string, b: string, line: string)
    requires a + b <= line && NUL !in line
    ensures |b| <= |line| && NUL !in b
  {
    assert line[|a|..|a| + |b|] == b;
  }

  lemma FirstMatchIs(c: seq<Record>, prefix: string, key: string, i: nat)
    requires i <= |c| && (forall k :: 0 <= k < i ==> !Matches(c[k], prefix, key))
    requires i < |c| ==> Matches(c[i], prefix, key)
    ensures FirstMatch(c, prefix, key) == i
  {
  }
}
