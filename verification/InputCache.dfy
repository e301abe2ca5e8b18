/** The cache of input devices (sensors_input_cache.c) on a circular doubly linked list (sensors/sensor_util_list.h). */
module InputCache {
  import opened Options
  import opened CText

  const INPUT_EVENT_DIR := "/dev/input/"
  const INPUT_EVENT_BASENAME := "event"
  const DEV_NAME_SIZE := 32
  const EVENT_PATH_SIZE := 28

  datatype Entry = Entry(nr: int, devName: string, path: string)

  /** A directory item: its file name, whether it can be opened, and the device name if the driver reports one. */
  datatype Item = Item(file: string, readable: bool, name: Option<string>)

  // ---- the ring ----

  class Node {
    var n: Node?
    var p: Node?
    var entry: Entry

    constructor ()
      ensures n == null && p == null
    {
      n, p, entry := null, null, Entry(0, "", "");
    }
  }

  /** The nodes, in order along the n links, form a ring: each n link is undone by a p link. */
  ghost predicate IsRing(ring: seq<Node>)
    reads ring
  {
    && |ring| > 0
    && (forall i, j :: 0 <= i < j < |ring| ==> ring[i] != ring[j])
    && (forall i :: 0 <= i < |ring| - 1 ==> ring[i].n == ring[i + 1] && ring[i + 1].p == ring[i])
    && ring[|ring| - 1].n == ring[0] && ring[0].p == ring[|ring| - 1]
  }

  /** `node_init`. */
  method NodeInit(node: Node)
    modifies node`n, node`p
    ensures IsRing([node])
  {
    node.p := node;
    node.n := node.p;
  }

  /** `node_add`: the new node goes right behind the head. */
  method NodeAdd(head: Node, node: Node, ghost ring: seq<Node>)
    requires IsRing(ring) && ring[0] == head && node !in ring
    modifies node`n, node`p, head`n, set x | x in ring :: x`p
    ensures IsRing([head, node] + ring[1..])
  {
    ghost var second := if |ring| > 1 then ring[1] else head;
    assert head.n == second && second.p == head && second in ring;
    ghost var all := [head, node] + ring[1..];
    assert forall i :: 2 <= i < |all| ==> all[i] == ring[i - 1];
    node.n := head.n;
    node.p := head;
    head.n := node;
    node.n.p := node;
    forall i | 0 <= i < |all| - 1
      ensures all[i].n == all[i + 1] && all[i + 1].p == all[i]
    {
      if i >= 2 {
        assert all[i] == ring[i - 1] && all[i + 1] == ring[i];
      }
    }
    assert all[|all| - 1].n == head && head.p == all[|all| - 1];
  }

  // ---- the cache as a list of entries ----

  predicate MatchesName(e: Entry, name: string) {
    SameUpTo(e.devName, name, DEV_NAME_SIZE - 1)
  }

  predicate MatchesPath(e: Entry, path: string) {
    SameUpTo(e.path, path, EVENT_PATH_SIZE - 1)
  }

  /** The first entry with a name. */
  function FindName(cache: seq<Entry>, name: string): Option<Entry> {
    if cache == [] then None else if MatchesName(cache[0], name) then Some(cache[0]) else FindName(cache[1..], name)
  }

  predicate HasPath(cache: seq<Entry>, path: string) {
    exists i :: 0 <= i < |cache| && MatchesPath(cache[i], path)
  }

  /** The path stored for a file, cut off by snprintf. */
  function PathOf(item: Item): string {
    Cut(INPUT_EVENT_DIR + item.file, EVENT_PATH_SIZE - 1)
  }

  predicate IsEventFile(item: Item) {
    INPUT_EVENT_BASENAME <= item.file
  }

  /** An event file that opens and has a name. */
  predicate Usable(item: Item) {
    IsEventFile(item) && item.readable && item.name.Some?
  }

  function EntryOf(item: Item): Entry
    requires Usable(item)
  {
    Entry(Atoi(item.file[|INPUT_EVENT_BASENAME|..]), Cut(item.name.value, DEV_NAME_SIZE), PathOf(item))
  }

  /** The scan of a directory: the cache and the match found so far. New entries go to the front. */
  function Scanned(cache: seq<Entry>, dir: seq<Item>, name: string, found: Option<Entry>): (seq<Entry>, Option<Entry>)
    decreases |dir|
  {
    if dir == [] then (cache, found) else
    var item := dir[0];
    if !Usable(item) || HasPath(cache, PathOf(item)) then Scanned(cache, dir[1..], name, found) else
    var e := EntryOf(item);
    Scanned([e] + cache, dir[1..], name, if found == None && MatchesName(e, name) then Some(e) else found)
  }

  /** One call: the new cache and the answer. The directory is None when it cannot be opened. */
  function Got(cache: seq<Entry>, dir: Option<seq<Item>>, name: string): (seq<Entry>, Option<Entry>) {
    var hit := FindName(cache, name);
    if hit.Some? || dir == None then (cache, hit) else Scanned(cache, dir.value, name, None)
  }

  class Cache {
    const head: Node
    var listInitialized: bool
    /** The cached nodes, from the one behind the head on. */
    ghost var nodes: seq<Node>

    ghost predicate Valid()
      reads this, head, nodes
    {
      (!listInitialized ==> nodes == []) && (listInitialized ==> IsRing([head] + nodes))
    }

    ghost function Contents(): (c: seq<Entry>)
      reads this, nodes
      ensures |c| == |nodes|
    {
      EntriesOf(nodes)
    }

    constructor ()
      ensures Valid() && fresh(head) && nodes == [] && Contents() == []
    {
      head := new Node();
      listInitialized := false;
      nodes := [];
    }

    /** `lookup` by name; the walk ends when it is back at the head. */
    method LookupName(name: string) returns (hit: Option<Entry>)
      requires Valid() && listInitialized
      ensures hit == FindName(Contents(), name)
    {
      hide IsRing, EntriesOf;
      ghost var k := 0;
      var member := head.n;
      RingSuccessor(head, nodes, -1);
      while member != head
        invariant k <= |nodes| && member == if k < |nodes| then nodes[k] else head
        invariant FindName(Contents(), name) == FindName(Contents()[k..], name)
        decreases |nodes| - k
      {
        assert Contents()[k..][0] == nodes[k].entry && Contents()[k..][1..] == Contents()[k + 1..];
        if SameUpTo(member.entry.devName, name, DEV_NAME_SIZE - 1) {
          return Some(member.entry);
        }
        RingSuccessor(head, nodes, k);
        member := member.n;
        k := k + 1;
      }
      HeadIsNoMember(head, nodes);
      return None;
    }

    /** `lookup` by path. */
    method LookupPath(path: string) returns (hit: bool)
      requires Valid() && listInitialized
      ensures hit == HasPath(Contents(), path)
    {
      hide IsRing, EntriesOf;
      ghost var k := 0;
      var member := head.n;
      RingSuccessor(head, nodes, -1);
      while member != head
        invariant k <= |nodes| && member == if k < |nodes| then nodes[k] else head
        invariant forall i :: 0 <= i < k ==> !MatchesPath(nodes[i].entry, path)
        decreases |nodes| - k
      {
        if SameUpTo(member.entry.path, path, EVENT_PATH_SIZE - 1) {
          assert MatchesPath(Contents()[k], path);
          return true;
        }
        RingSuccessor(head, nodes, k);
        member := member.n;
        k := k + 1;
      }
      HeadIsNoMember(head, nodes);
      return false;
    }

    /** Linking a filled-in node behind the head. */
    method Insert(node: Node)
      requires Valid() && listInitialized && node != head && node !in nodes
      modifies this`nodes, node`n, node`p, head`n, head`p, set x | x in nodes :: x`p
      ensures Valid() && listInitialized && nodes == [node] + old(nodes)
      ensures Contents() == [node.entry] + old(Contents()) && node.entry == old(node.entry)
    {
      hide IsRing, EntriesOf;
      NodeAdd(head, node, [head] + nodes);
      assert forall i :: 0 <= i < |nodes| ==> nodes[i].entry == old(nodes[i].entry);
      assert [head, node] + ([head] + nodes)[1..] == [head] + ([node] + nodes);
      nodes := [node] + nodes;
    }

    /** `sensors_input_cache_get`. */
    method Get(name: string, dir: Option<seq<Item>>) returns (found: Option<Entry>)
      requires Valid()
      modifies this, head, nodes
      ensures Valid() && fresh(set x | x in nodes && x !in old(nodes))
      ensures (Contents(), found) == Got(old(Contents()), dir, name)
    {
      if !listInitialized {
        NodeInit(head);
        assert [head] + nodes == [head];
        listInitialized := true;
      }
      found := LookupName(name);
      if found.Some? || dir == None {
        return;
      }
      found := Scan(name, dir.value);
    }

    /** The loop over the directory. A node that was not used for an item is used for the next one. */
    method Scan(name: string, dir: seq<Item>) returns (found: Option<Entry>)
      requires Valid() && listInitialized
      modifies this`nodes, head, nodes
      ensures Valid() && listInitialized && fresh(set x | x in nodes && x !in old(nodes))
      ensures (Contents(), found) == Scanned(old(Contents()), dir, name, None)
    {
      hide IsRing, EntriesOf, HasPath, Usable, EntryOf, PathOf, MatchesName;
      found := None;
      var temp := new Node();
      for i := 0 to |dir|
        invariant Valid() && listInitialized && fresh(temp) && temp !in nodes && temp != head
        invariant forall x :: x in nodes ==> x in old(nodes) || fresh(x)
        invariant Scanned(Contents(), dir[i..], name, found) == Scanned(old(Contents()), dir, name, None)
      {
        assert dir[i..][1..] == dir[i + 1..];
        var used;
        used, found := Consider(dir[i], name, temp, found);
        if used {
          temp := new Node();
        }
      }
      assert dir[|dir|..] == [];
    }

    /** One item of the directory: it is skipped, or cached in the node given. */
    method Consider(item: Item, name: string, temp: Node, found: Option<Entry>)
      returns (used: bool, found': Option<Entry>)
      requires Valid() && listInitialized && temp !in nodes && temp != head
      modifies this`nodes, temp, head`n, head`p, set x | x in nodes :: x`p
      ensures Valid() && listInitialized && nodes == if used then [temp] + old(nodes) else old(nodes)
      ensures used == (Usable(item) && !HasPath(old(Contents()), PathOf(item)))
      ensures Contents() == if used then [EntryOf(item)] + old(Contents()) else old(Contents())
      ensures found' == if used && found == None && MatchesName(EntryOf(item), name) then Some(EntryOf(item)) else found
    {
      hide IsRing, HasPath, EntriesOf;
      used, found' := false, found;
      if !(INPUT_EVENT_BASENAME <= item.file) {
        return;
      }
      temp.entry := temp.entry.(path := Cut(INPUT_EVENT_DIR + item.file, EVENT_PATH_SIZE - 1));
      assert temp !in [head] + nodes;
      assert Valid() && Contents() == old(Contents());
      var cached := LookupPath(temp.entry.path);
      if cached || !item.readable || item.name == None {
        return;
      }
      temp.entry := temp.entry.(devName := Cut(item.name.value, DEV_NAME_SIZE));
      temp.entry := temp.entry.(nr := Atoi(item.file[|INPUT_EVENT_BASENAME|..]));
      Insert(temp);
      used := true;
      if found == None && SameUpTo(temp.entry.devName, name, DEV_NAME_SIZE - 1) {
        found' := Some(temp.entry);
      }
    }
  }

  lemma RingSuccessor(head: Node, nodes: seq<Node>, k: int)
    requires IsRing([head] + nodes) && -1 <= k < |nodes|
    ensures (if k < 0 then head else nodes[k]).n == if k + 1 < |nodes| then nodes[k + 1] else head
  {
    var ring := [head] + nodes;
    assert ring[k + 1] == if k < 0 then head else nodes[k];
    if k + 1 < |nodes| {
      assert ring[k + 1].n == ring[k + 1 + 1];
    }
  }

  lemma HeadIsNoMember(head: Node, nodes: seq<Node>)
    requires IsRing([head] + nodes)
    ensures head !in nodes
  {
    var ring := [head] + nodes;
    forall i | 0 <= i < |nodes|
      ensures nodes[i] != head
    {
      assert ring[i + 1] == nodes[i] && ring[0] == head;
    }
  }

  ghost function EntriesOf(nodes: seq<Node>): (c: seq<Entry>)
    reads nodes
    ensures |c| == |nodes|
    ensures forall i :: 0 <= i < |nodes| ==> c[i] == nodes[i].entry
  {
    if nodes == [] then [] else [nodes[0].entry] + EntriesOf(nodes[1..])
  }

  // ---- what any sequence of calls keeps, and what it answers ----

  ghost predicate DistinctPaths(c: seq<Entry>) {
    forall i, j :: 0 <= i < j < |c| ==> !MatchesPath(c[i], c[j].path)
  }

  lemma {:induction false} ScanKeepsDistinctPaths(cache: seq<Entry>, dir: seq<Item>, name: string, found: Option<Entry>)
    requires DistinctPaths(cache)
    ensures DistinctPaths(Scanned(cache, dir, name, found).0)
    decreases |dir|
  {
    if dir == [] {
    } else {
      hide MatchesPath, MatchesName;
      var item := dir[0];
      if !Usable(item) || HasPath(cache, PathOf(item)) {
        ScanKeepsDistinctPaths(cache, dir[1..], name, found);
      } else {
        var e := EntryOf(item);
        forall i | 0 <= i < |cache|
          ensures !MatchesPath(e, cache[i].path)
        {
          MatchIsSymmetric(e, cache[i]);
        }
        var found' := if found == None && MatchesName(e, name) then Some(e) else found;
        ScanKeepsDistinctPaths([e] + cache, dir[1..], name, found');
      }
    }
  }

  lemma MatchIsSymmetric(a: Entry, b: Entry)
    ensures MatchesPath(a, b.path) == MatchesPath(b, a.path)
  {
  }

  /** One call, with whatever the directory holds at the time. */
  datatype Query = Query(name: string, dir: Option<seq<Item>>)

  function CacheAfter(queries: seq<Query>): seq<Entry> {
    if queries == [] then [] else
    var q := queries[|queries| - 1];
    Got(CacheAfter(queries[..|queries| - 1]), q.dir, q.name).0
  }

  /** After any sequence of calls, over any directories, no two cached entries have the same path. */
  lemma {:induction false} PathsStayDistinct(queries: seq<Query>)
    ensures DistinctPaths(CacheAfter(queries))
  {
    if queries == [] {
    } else {
      var init, q := queries[..|queries| - 1], queries[|queries| - 1];
      PathsStayDistinct(init);
      if q.dir.Some? {
        ScanKeepsDistinctPaths(CacheAfter(init), q.dir.value, q.name, None);
      }
    }
  }

  /** The entries of a directory, in directory order. */
  function Entries(dir: seq<Item>): seq<Entry> {
    if dir == [] then [] else (if Usable(dir[0]) then [EntryOf(dir[0])] else []) + Entries(dir[1..])
  }

  function Reverse(s: seq<Entry>): (r: seq<Entry>)
    ensures |r| == |s|
    ensures forall i :: 0 <= i < |s| ==> r[i] == s[|s| - 1 - i]
  {
    if s == [] then [] else Reverse(s[1..]) + [s[0]]
  }

  /** The answer of a full scan without a cache. */
  function FreshAnswer(dir: seq<Item>, name: string): Option<Entry> {
    FindName(Entries(dir), name)
  }

  /** Files have different paths, even after being cut off. */
  ghost predicate DirectoryOk(dir: seq<Item>) {
    DistinctPaths(Entries(dir))
  }

  /** A scan that meets no cached path adds every entry and answers like a fresh scan. */
  lemma {:induction false} ScanOfNewDirectory(cache: seq<Entry>, dir: seq<Item>, name: string, found: Option<Entry>)
    requires DistinctPaths(Entries(dir))
    requires forall i, j :: 0 <= i < |cache| && 0 <= j < |Entries(dir)| ==> !MatchesPath(cache[i], Entries(dir)[j].path)
    ensures Scanned(cache, dir, name, found)
         == (Reverse(Entries(dir)) + cache, if found.Some? then found else FindName(Entries(dir), name))
    decreases |dir|
  {
    if dir == [] {
      assert [] + cache == cache;
    } else if !Usable(dir[0]) {
      assert Entries(dir) == Entries(dir[1..]);
      ScanOfNewDirectory(cache, dir[1..], name, found);
    } else {
      hide MatchesPath, MatchesName, Usable, EntryOf;
      var e, rest := EntryOf(dir[0]), Entries(dir[1..]);
      assert Entries(dir) == [e] + rest && Entries(dir)[1..] == rest;
      assert !HasPath(cache, PathOf(dir[0])) by {
        PathOfEntry(dir[0]);
        assert Entries(dir)[0] == e;
      }
      forall i, j | 0 <= i < |[e] + cache| && 0 <= j < |rest|
        ensures !MatchesPath(([e] + cache)[i], rest[j].path)
      {
        assert Entries(dir)[j + 1] == rest[j];
      }
      ScanOfNewDirectory([e] + cache, dir[1..], name, if found == None && MatchesName(e, name) then Some(e) else found);
      assert Reverse(rest) + ([e] + cache) == Reverse(Entries(dir)) + cache;
    }
  }

  lemma PathOfEntry(item: Item)
    requires Usable(item)
    ensures EntryOf(item).path == PathOf(item)
  {
  }

  /** A scan that meets only cached paths changes nothing. */
  lemma {:induction false} ScanOfCachedDirectory(cache: seq<Entry>, dir: seq<Item>, name: string, found: Option<Entry>)
    requires forall j :: 0 <= j < |Entries(dir)| ==> Entries(dir)[j] in cache
    ensures Scanned(cache, dir, name, found) == (cache, found)
    decreases |dir|
  {
    if dir == [] {
    } else {
      hide MatchesName, EntryOf, Usable;
      if Usable(dir[0]) {
        assert Entries(dir)[0] == EntryOf(dir[0]);
        PathOfEntry(dir[0]);
        var i :| 0 <= i < |cache| && cache[i] == EntryOf(dir[0]);
        assert MatchesPath(cache[i], PathOf(dir[0]));
        assert Entries(dir)[1..] == Entries(dir[1..]);
      }
      forall j | 0 <= j < |Entries(dir[1..])|
        ensures Entries(dir[1..])[j] in cache
      {
        assert Entries(dir[1..])[j] in Entries(dir);
      }
      ScanOfCachedDirectory(cache, dir[1..], name, found);
    }
  }

  /** With a fixed directory the cache is empty or holds the whole directory, last file first. */
  lemma {:induction false} CacheOfFixedDirectory(queries: seq<Query>, dir: seq<Item>)
    requires DirectoryOk(dir) && forall i :: 0 <= i < |queries| ==> queries[i].dir == Some(dir)
    ensures CacheAfter(queries) == if queries == [] then [] else Reverse(Entries(dir))
  {
    if queries == [] {
    } else {
      hide Scanned, FindName;
      var init, q := queries[..|queries| - 1], queries[|queries| - 1];
      CacheOfFixedDirectory(init, dir);
      NextQuery(CacheAfter(init), dir, q.name);
    }
  }

  /** The answer and the cache after one more call. */
  lemma NextQuery(cache: seq<Entry>, dir: seq<Item>, name: string)
    requires DirectoryOk(dir) && (cache == [] || cache == Reverse(Entries(dir)))
    ensures Got(cache, Some(dir), name).0 == Reverse(Entries(dir))
    ensures Got(cache, Some(dir), name).1
         == if cache == [] then FreshAnswer(dir, name) else FindName(Reverse(Entries(dir)), name)
  {
    hide MatchesPath, MatchesName;
    if cache == [] {
      ScanOfNewDirectory([], dir, name, None);
      assert Reverse(Entries(dir)) + [] == Reverse(Entries(dir));
    } else if FindName(cache, name) == None {
      forall j | 0 <= j < |Entries(dir)|
        ensures Entries(dir)[j] in cache
      {
        assert cache[|cache| - 1 - j] == Entries(dir)[j];
      }
      ScanOfCachedDirectory(cache, dir, name, None);
    }
  }

  /** At most one device has a name. */
  ghost predicate UniqueName(c: seq<Entry>, name: string) {
    forall i, j :: 0 <= i < j < |c| ==> !(MatchesName(c[i], name) && MatchesName(c[j], name))
  }

  lemma {:induction false} FindNameIs(c: seq<Entry>, name: string)
    ensures FindName(c, name) == None <==> forall i :: 0 <= i < |c| ==> !MatchesName(c[i], name)
    ensures FindName(c, name).Some? ==>
              exists i :: 0 <= i < |c| && c[i] == FindName(c, name).value
                          && MatchesName(c[i], name) && forall k :: 0 <= k < i ==> !MatchesName(c[k], name)
  {
    hide MatchesName;
    if c == [] {
    } else {
      FindNameIs(c[1..], name);
      if FindName(c, name).Some? && !MatchesName(c[0], name) {
        var i :| 0 <= i < |c[1..]| && c[1..][i] == FindName(c, name).value && MatchesName(c[1..][i], name)
                 && forall k :: 0 <= k < i ==> !MatchesName(c[1..][k], name);
        assert c[i + 1] == c[1..][i];
        forall k | 0 <= k < i + 1
          ensures !MatchesName(c[k], name)
        {
          assert k > 0 ==> c[k] == c[1..][k - 1];
        }
      }
    }
  }

  /** Searching backwards finds the last match. */
  lemma FindNameReversed(c: seq<Entry>, name: string)
    ensures FindName(Reverse(c), name) == None <==> forall i :: 0 <= i < |c| ==> !MatchesName(c[i], name)
    ensures FindName(Reverse(c), name).Some? ==>
              exists m :: 0 <= m < |c| && c[m] == FindName(Reverse(c), name).value
                          && MatchesName(c[m], name) && forall k :: m < k < |c| ==> !MatchesName(c[k], name)
  {
    hide MatchesName, FindName, Reverse;
    var r := Reverse(c);
    FindNameIs(r, name);
    forall i | 0 <= i < |c|
      ensures c[i] == r[|c| - 1 - i]
    {
    }
    if FindName(r, name).Some? {
      var j :| 0 <= j < |c| && r[j] == FindName(r, name).value
               && MatchesName(r[j], name) && forall k :: 0 <= k < j ==> !MatchesName(r[k], name);
      assert c[|c| - 1 - j] == r[j];
    }
  }

  /** The last device with a name is the first exactly when there is at most one. */
  lemma LastMatchIsFirstIffUnique(c: seq<Entry>, name: string)
    requires DistinctPaths(c)
    ensures FindName(Reverse(c), name) == FindName(c, name) <==> UniqueName(c, name)
  {
    hide MatchesName, MatchesPath, FindName, Reverse;
    FindNameIs(c, name);
    FindNameReversed(c, name);
    if FindName(c, name).Some? {
      var i :| 0 <= i < |c| && c[i] == FindName(c, name).value
               && MatchesName(c[i], name) && forall k :: 0 <= k < i ==> !MatchesName(c[k], name);
      var m :| 0 <= m < |c| && c[m] == FindName(Reverse(c), name).value
               && MatchesName(c[m], name) && forall k :: m < k < |c| ==> !MatchesName(c[k], name);
      assert i <= m;
      hide DistinctPaths;
      if i < m {
        DifferentEntries(c, i, m);
      }
    }
  }

  lemma DifferentEntries(c: seq<Entry>, i: nat, m: nat)
    requires i < m < |c| && DistinctPaths(c)
    ensures c[i] != c[m]
  {
    assert !MatchesPath(c[i], c[m].path);
  }

  /** Main result: over a fixed directory, every call answers like a fresh scan of the whole directory if and only if
    it is the first call or at most one device has the name asked for. */
  lemma {:induction false} CachedAnswerIsFreshIffUnique(queries: seq<Query>, dir: seq<Item>, name: string)
    requires DirectoryOk(dir) && forall i :: 0 <= i < |queries| ==> queries[i].dir == Some(dir)
    ensures Got(CacheAfter(queries), Some(dir), name).1 == FreshAnswer(dir, name)
            <==> queries == [] || UniqueName(Entries(dir), name)
  {
    hide Got, MatchesName, MatchesPath, FindName, DistinctPaths;
    CacheOfFixedDirectory(queries, dir);
    NextQuery(CacheAfter(queries), dir, name);
    LastMatchIsFirstIffUnique(Entries(dir), name);
  }

  /** Two devices with the same name: after one query for it, the cache answers with the other device than a scan. */
  lemma SecondQueryDiffers(dir: seq<Item>)
    requires dir == [Item("event0", true, Some("k")), Item("event1", true, Some("k"))]
    ensures var queries := [Query("k", Some(dir))];
            && DirectoryOk(dir)
            && Got([], Some(dir), "k").1 == FreshAnswer(dir, "k")
            && Got(CacheAfter(queries), Some(dir), "k").1 != FreshAnswer(dir, "k")
  {
    var e := Entries(dir);
    TwoEntries(dir);
    assert e[0].path[16] == '0' && e[1].path[16] == '1';
    assert MatchesName(e[0], "k") && MatchesName(e[1], "k");
    assert DirectoryOk(dir);
    hide DirectoryOk, Got, Entries, FreshAnswer, CacheAfter;
    CachedAnswerIsFreshIffUnique([], dir, "k");
    CachedAnswerIsFreshIffUnique([Query("k", Some(dir))], dir, "k");
  }

  lemma TwoEntries(dir: seq<Item>)
    requires |dir| == 2 && Usable(dir[0]) && Usable(dir[1])
    ensures Entries(dir) == [EntryOf(dir[0]), EntryOf(dir[1])]
  {
    hide EntryOf, Usable;
    assert Entries(dir[1..]) == [EntryOf(dir[1])] + Entries(dir[1..][1..]);
    assert dir[1..][1..] == [];
  }

  // ---- what an entry says ----

  /** Names are compared on 31 characters, paths on 27. */
  lemma MatchesIff(e: Entry, text: string)
    ensures MatchesName(e, text) <==> forall i: nat :: i < 31 ==> SameAt(e.devName, text, i)
    ensures MatchesPath(e, text) <==> forall i: nat :: i < 27 ==> SameAt(e.path, text, i)
  {
    SameUpToIff(e.devName, text, 31);
    SameUpToIff(e.path, text, 27);
  }

  /** An item of the directory that belongs in the cache. */
  predicate IsDevice(item: Item) {
    |item.file| >= 5 && item.file[..5] == "event" && item.readable && item.name.Some?
  }

  /** The entry gives the path, the name and the number of the device. */
  ghost predicate Describes(e: Entry, item: Item) {
    && e.path == Cut("/dev/input/" + item.file, 27)
    && item.name.Some? && e.devName == Cut(item.name.value, 32)
    && forall n: nat, rest: string ::
         item.file == "event" + (Decimal(n) + rest) && (rest == "" || !IsDigit(rest[0])) ==> e.nr == n
  }

  lemma EntryDescribes(item: Item)
    requires IsDevice(item)
    ensures Usable(item) && Describes(EntryOf(item), item)
  {
    hide Cut, Atoi, Decimal;
    forall n: nat, rest: string | item.file == "event" + (Decimal(n) + rest) && (rest == "" || !IsDigit(rest[0]))
      ensures EntryOf(item).nr == n
    {
      var digits := Decimal(n) + rest;
      AtoiReadsDecimal("", "", n, rest);
      assert "" + ("" + digits) == digits && item.file[5..] == digits;
    }
  }

  lemma {:induction false} EntriesOneMore(dir: seq<Item>, item: Item)
    ensures Entries(dir + [item]) == Entries(dir) + if Usable(item) then [EntryOf(item)] else []
  {
    hide Usable, EntryOf;
    if dir == [] {
      assert [item][1..] == [];
    } else {
      EntriesOneMore(dir[1..], item);
      assert (dir + [item])[1..] == dir[1..] + [item];
    }
  }

  /** The entries of a directory are those of its devices, in directory order. */
  lemma {:induction false} EntriesAreDevices(dir: seq<Item>, m: nat) returns (devices: seq<nat>)
    requires m <= |dir|
    ensures forall a, b :: 0 <= a < b < |devices| ==> devices[a] < devices[b]
    ensures forall j: nat :: j in devices <==> j < m && IsDevice(dir[j])
    ensures |Entries(dir[..m])| == |devices|
    ensures forall k :: 0 <= k < |devices| ==> devices[k] < m && Describes(Entries(dir[..m])[k], dir[devices[k]])
  {
    if m == 0 {
      devices := [];
    } else {
      hide Describes, EntryOf;
      devices := EntriesAreDevices(dir, m - 1);
      assert dir[..m] == dir[..m - 1] + [dir[m - 1]];
      EntriesOneMore(dir[..m - 1], dir[m - 1]);
      hide Entries;
      if IsDevice(dir[m - 1]) {
        EntryDescribes(dir[m - 1]);
        devices := devices + [m - 1];
      }
    }
  }

  // ---- directories that change ----

  lemma HasPathInLarger(added: seq<Entry>, cache: seq<Entry>, path: string)
    requires HasPath(cache, path)
    ensures HasPath(added + cache, path)
  {
    hide MatchesPath;
    var i :| 0 <= i < |cache| && MatchesPath(cache[i], path);
    assert (added + cache)[|added| + i] == cache[i];
  }

  lemma OwnPathIsCached(e: Entry, cache: seq<Entry>)
    ensures HasPath([e] + cache, e.path)
  {
    assert MatchesPath(([e] + cache)[0], e.path);
  }

  /** The entry is that of a device of the directory whose path was not cached. */
  ghost predicate IsNew(e: Entry, dir: seq<Item>, cache: seq<Entry>) {
    exists item :: item in dir && IsDevice(item) && Describes(e, item) && !HasPath(cache, PathOf(item))
  }

  /** The path of every device of the directory is cached. */
  ghost predicate AllCached(dir: seq<Item>, cache: seq<Entry>) {
    forall item :: item in dir && IsDevice(item) ==> HasPath(cache, PathOf(item))
  }

  /** Whatever is cached, a scan puts new entries in front, each for a device whose path was not cached, and afterwards
    the path of every device is cached. Without an earlier match it answers with the first new entry of that name. */
  lemma {:induction false} ScanAddsMissing(cache: seq<Entry>, dir: seq<Item>, name: string, found: Option<Entry>)
      returns (added: seq<Entry>)
    ensures Scanned(cache, dir, name, found)
         == (Reverse(added) + cache, if found.Some? then found else FindName(added, name))
    ensures forall k :: 0 <= k < |added| ==> IsNew(added[k], dir, cache)
    ensures AllCached(dir, Reverse(added) + cache)
    decreases |dir|
  {
    hide MatchesPath, MatchesName, EntryOf, HasPath, Describes, IsNew, AllCached, PathOf;
    if dir == [] {
      added := [];
      assert [] + cache == cache;
      NothingToCache(cache);
    } else {
      var item := dir[0];
      if !Usable(item) || HasPath(cache, PathOf(item)) {
        added := ScanAddsMissing(cache, dir[1..], name, found);
        NewInLarger(cache, cache, [], dir, added);
        CachedWithFirst(dir, Reverse(added) + cache, Reverse(added), cache);
      } else {
        var e := EntryOf(item);
        var rest := ScanAddsMissing([e] + cache, dir[1..], name,
                                    if found == None && MatchesName(e, name) then Some(e) else found);
        added := [e] + rest;
        assert added[1..] == rest && Reverse(rest) + ([e] + cache) == Reverse(added) + cache;
        EntryDescribes(item);
        PathOfEntry(item);
        OwnPathIsCached(e, cache);
        NewInLarger([e] + cache, cache, [e], dir, rest);
        FirstIsNew(e, dir, cache);
        CachedWithFirst(dir, Reverse(added) + cache, Reverse(rest), [e] + cache);
      }
    }
  }

  lemma NothingToCache(cache: seq<Entry>)
    ensures AllCached([], cache)
  {
  }

  lemma FirstIsNew(e: Entry, dir: seq<Item>, cache: seq<Entry>)
    requires dir != [] && IsDevice(dir[0]) && Describes(e, dir[0]) && !HasPath(cache, PathOf(dir[0]))
    ensures IsNew(e, dir, cache)
  {
    hide HasPath, PathOf, Describes, IsDevice;
    assert dir[0] in dir;
  }

  /** What is new to a larger cache and the rest of the directory is new to the cache and the whole directory. */
  lemma NewInLarger(larger: seq<Entry>, cache: seq<Entry>, front: seq<Entry>, dir: seq<Item>, added: seq<Entry>)
    requires dir != [] && larger == front + cache && forall k :: 0 <= k < |added| ==> IsNew(added[k], dir[1..], larger)
    ensures forall k :: 0 <= k < |added| ==> IsNew(added[k], dir, cache)
  {
    hide HasPath, PathOf, Describes, IsDevice;
    forall k | 0 <= k < |added|
      ensures IsNew(added[k], dir, cache)
    {
      assert IsNew(added[k], dir[1..], larger);
      var item :| item in dir[1..] && IsDevice(item) && Describes(added[k], item) && !HasPath(larger, PathOf(item));
      assert item in dir;
      if HasPath(cache, PathOf(item)) {
        HasPathInLarger(front, cache, PathOf(item));
      }
    }
  }

  lemma CachedWithFirst(dir: seq<Item>, all: seq<Entry>, front: seq<Entry>, cache: seq<Entry>)
    requires dir != [] && all == front + cache && AllCached(dir[1..], all)
    requires Usable(dir[0]) ==> HasPath(cache, PathOf(dir[0]))
    ensures AllCached(dir, all)
  {
    hide HasPath, PathOf;
    forall item | item in dir && IsDevice(item)
      ensures HasPath(all, PathOf(item))
    {
      if item == dir[0] {
        EntryDescribes(item);
        HasPathInLarger(front, cache, PathOf(item));
      } else {
        assert item in dir[1..];
      }
    }
  }
}
