// The gossip payload and the first-wins merge of what it says.
module Merge {
  import opened Text
  import opened Primitives
  import opened Protocol
  import opened Tables

  /** What one gossip entry tells about a node. */
  datatype Heard = Heard(nodeId: string, address: string, nodeType: Column, access: Column)

  // --- payload ---

  function FromColumn(c: Column): Value {
    match c
    case Words(text) => Str(text)
    case Blob(data) => Bin(data)
  }

  function NodeDict(id: string, r: NodeRow): Value {
    Dict(map["node_id" := Str(id), "address" := Str(r.address), "type" := FromColumn(r.nodeType),
             "access" := FromColumn(r.access), "cert" := Str(Hex(r.cert)), "parent_node" := Str(r.parentNode),
             "last_seen" := Int(r.lastSeen), "status" := Str(r.status)])
  }

  function NodeDicts(t: NodeTable, ids: seq<string>): seq<Value>
    requires forall id :: id in ids ==> id in t
  {
    if ids == [] then [] else [NodeDict(ids[0], t[ids[0]])] + NodeDicts(t, ids[1..])
  }

  function GossipPayload(lib: Library, t: NodeTable, ids: seq<string>): Bytes
    requires forall id :: id in ids ==> id in t
  {
    lib.pack(Dict(map["nodes" := List(NodeDicts(t, ids))]))
  }

  /** A text that may be missing; None is a truthy value that is not text. */
  function GetText(d: map<string, Value>, key: string): Option<string> {
    if key !in d || Falsy(d[key]) then Some("")
    else if d[key].Str? then Some(d[key].s) else None
  }

  const SQL_INT := 0x8000_0000_0000_0000

  /** d.get(key, default) as a NOT NULL column takes it; None where the insert fails. */
  function ToColumn(d: map<string, Value>, key: string, default: string): Option<Column> {
    if key !in d then Some(Words(default)) else
      match d[key]
      case Str(s) => Some(Words(s))
      case Int(n) => if -SQL_INT <= n < SQL_INT then Some(Words(Decimal(n))) else None
      case Bool(b) => Some(Words(if b then "1" else "0"))
      case Bin(data) => Some(Blob(data))
      case _ => None
  }

  /** A gossip entry: what it says, and whether its type and access can be stored. */
  datatype Entry = Entry(heard: Heard, legible: bool)

  function EntryFrom(v: Value): Option<Entry> {
    if !v.Dict? then None else
      match (GetText(v.fields, "node_id"), GetText(v.fields, "address"))
      case (Some(id), Some(address)) =>
        (match (ToColumn(v.fields, "type", "permanent"), ToColumn(v.fields, "access", "closed"))
         case (Some(nodeType), Some(access)) => Some(Entry(Heard(id, address, nodeType, access), true))
         case _ => Some(Entry(Heard(id, address, Words(""), Words("")), false)))
      case _ => None
  }

  /** The entries the merge loop can get to: it stops at the first whose id it cannot read. */
  function EntryList(items: seq<Value>): seq<Entry> {
    if items == [] then [] else
      match EntryFrom(items[0])
      case Some(e) => [e] + EntryList(items[1..])
      case None => []
  }

  function DecodeGossip(lib: Library, payload: Bytes): seq<Entry> {
    match lib.unpack(payload)
    case Some(Dict(d)) => if "nodes" in d && d["nodes"].List? then EntryList(d["nodes"].items) else []
    case _ => []
  }

  /** What the merge loop gets through, when it starts out with these ids known: type and access
      are looked at only for an unknown id, and there the loop stops if they cannot be stored. */
  function Heeded(known: set<string>, entries: seq<Entry>): seq<Heard>
    decreases |entries|
  {
    if entries == [] || Stumbles(known, entries[0]) then []
    else [entries[0].heard] + Heeded(Knowing(known, entries[0].heard), entries[1..])
  }

  predicate Stumbles(known: set<string>, e: Entry) {
    Usable(e.heard) && e.heard.nodeId !in known && !e.legible
  }

  function Knowing(known: set<string>, h: Heard): set<string> {
    if Usable(h) then known + {h.nodeId} else known
  }

  /** Everything the entries say. */
  function AllHeard(entries: seq<Entry>): seq<Heard> {
    if entries == [] then [] else [entries[0].heard] + AllHeard(entries[1..])
  }

  predicate AllLegible(entries: seq<Entry>) {
    forall e :: e in entries ==> e.legible
  }

  lemma {:induction false} LegibleHeeded(known: set<string>, entries: seq<Entry>)
    requires AllLegible(entries)
    ensures Heeded(known, entries) == AllHeard(entries)
    decreases |entries|
  {
    if entries != [] {
      LegibleHeeded(Knowing(known, entries[0].heard), entries[1..]);
    }
  }

  lemma {:induction false} HeededPart(known: set<string>, entries: seq<Entry>)
    ensures Heeded(known, entries) <= AllHeard(entries)
    decreases |entries|
  {
    if entries != [] && !Stumbles(known, entries[0]) {
      HeededPart(Knowing(known, entries[0].heard), entries[1..]);
    }
  }

  function HeardOf(t: NodeTable, ids: seq<string>): seq<Heard>
    requires forall id :: id in ids ==> id in t
  {
    if ids == [] then []
    else [Heard(ids[0], t[ids[0]].address, t[ids[0]].nodeType, t[ids[0]].access)] + HeardOf(t, ids[1..])
  }

  // A pushed table is read back entry by entry.
  lemma GossipRoundTrip(lib: Library, t: NodeTable, ids: seq<string>)
    requires lib.CodecLaw()
    requires forall id :: id in ids ==> id in t
    ensures var entries := DecodeGossip(lib, GossipPayload(lib, t, ids));
            AllLegible(entries) && AllHeard(entries) == HeardOf(t, ids)
  {
    var d := map["nodes" := List(NodeDicts(t, ids))];
    assert lib.unpack(lib.pack(Dict(d))) == Some(Dict(d));
    DictsRoundTrip(t, ids);
  }

  lemma DictRead(id: string, r: NodeRow)
    ensures EntryFrom(NodeDict(id, r)) == Some(Entry(Heard(id, r.address, r.nodeType, r.access), true))
  {
    var d := NodeDict(id, r).fields;
    assert d["node_id"] == Str(id) && d["address"] == Str(r.address);
    assert d["type"] == FromColumn(r.nodeType) && d["access"] == FromColumn(r.access);
  }

  lemma {:induction false} DictsRoundTrip(t: NodeTable, ids: seq<string>)
    requires forall id :: id in ids ==> id in t
    ensures AllLegible(EntryList(NodeDicts(t, ids))) && AllHeard(EntryList(NodeDicts(t, ids))) == HeardOf(t, ids)
  {
    if ids != [] {
      DictRead(ids[0], t[ids[0]]);
      assert NodeDicts(t, ids)[1..] == NodeDicts(t, ids[1..]);
      DictsRoundTrip(t, ids[1..]);
    }
  }

  // --- merge ---

  predicate Usable(h: Heard) {
    h.nodeId != "" && h.address != ""
  }

  // The turn of the merge loop at the i-th item, after those in `done`.
  lemma MergeTurn(known: set<string>, items: seq<Value>, i: nat, done: seq<Heard>)
    requires i < |items|
    ensures match EntryFrom(items[i])
            case None => done + Heeded(known, EntryList(items[i..])) == done
            case Some(e) =>
              if Stumbles(known, e) then done + Heeded(known, EntryList(items[i..])) == done
              else done + Heeded(known, EntryList(items[i..]))
                   == (done + [e.heard]) + Heeded(Knowing(known, e.heard), EntryList(items[i + 1..]))
  {
    assert items[i..][0] == items[i] && items[i..][1..] == items[i + 1..];
  }

  ghost function HeardIds(heard: seq<Heard>): set<string> {
    set i | 0 <= i < |heard| && Usable(heard[i]) :: heard[i].nodeId
  }

  /** The first usable entry about id. */
  ghost function FirstAbout(heard: seq<Heard>, id: string): (h: Heard)
    requires id in HeardIds(heard)
    ensures h in heard && Usable(h) && h.nodeId == id
  {
    if Usable(heard[0]) && heard[0].nodeId == id then heard[0]
    else
      assert id in HeardIds(heard[1..]) by {
        var i :| 0 <= i < |heard| && Usable(heard[i]) && heard[i].nodeId == id;
        assert heard[1..][i - 1] == heard[i];
      }
      FirstAbout(heard[1..], id)
  }

  function NewRow(h: Heard, now: int): NodeRow {
    NodeRow(h.address, h.nodeType, h.access, [], "", now, 0, ONLINE, now)
  }

  /** Every known row unchanged, and a fresh row for each unknown id, from the first word of it. */
  ghost function Merged(t: NodeTable, heard: seq<Heard>, now: int): NodeTable {
    map id | id in t.Keys + HeardIds(heard)
        :: if id in t then t[id] else NewRow(FirstAbout(heard, id), now)
  }

  lemma {:induction false} FirstAboutAppend(heard: seq<Heard>, h: Heard, id: string)
    requires id in HeardIds(heard)
    ensures id in HeardIds(heard + [h]) && FirstAbout(heard + [h], id) == FirstAbout(heard, id)
  {
    var i :| 0 <= i < |heard| && Usable(heard[i]) && heard[i].nodeId == id;
    assert (heard + [h])[i] == heard[i];
    if !(Usable(heard[0]) && heard[0].nodeId == id) {
      assert heard[1..][i - 1] == heard[i];
      assert (heard + [h])[1..] == heard[1..] + [h];
      FirstAboutAppend(heard[1..], h, id);
    }
  }

  lemma {:induction false} FirstAboutNew(heard: seq<Heard>, h: Heard)
    requires Usable(h) && h.nodeId !in HeardIds(heard)
    ensures h.nodeId in HeardIds(heard + [h]) && FirstAbout(heard + [h], h.nodeId) == h
  {
    assert (heard + [h])[|heard|] == h;
    if heard != [] {
      assert heard[0].nodeId in HeardIds(heard) || !Usable(heard[0]);
      assert (heard + [h])[1..] == heard[1..] + [h];
      assert h.nodeId !in HeardIds(heard[1..]) by {
        assert forall i :: 0 <= i < |heard[1..]| ==> heard[1..][i] == heard[i + 1];
      }
      FirstAboutNew(heard[1..], h);
    }
  }

  lemma HeardIdsAppend(heard: seq<Heard>, h: Heard)
    ensures HeardIds(heard + [h]) == HeardIds(heard) + (if Usable(h) then {h.nodeId} else {})
  {
    var more := heard + [h];
    forall id | id in HeardIds(heard)
      ensures id in HeardIds(more)
    {
      var i :| 0 <= i < |heard| && Usable(heard[i]) && heard[i].nodeId == id;
      assert more[i] == heard[i];
    }
    assert more[|heard|] == h;
  }

  lemma MergeOneKeeps(t: NodeTable, heard: seq<Heard>, h: Heard, now: int, id: string)
    requires id in Merged(t, heard, now)
    ensures id in Merged(t, heard + [h], now)
    ensures Merged(t, heard + [h], now)[id] == Merged(t, heard, now)[id]
  {
    HeardIdsAppend(heard, h);
    if id !in t {
      FirstAboutAppend(heard, h, id);
    }
  }

  lemma MergeOneAdds(t: NodeTable, heard: seq<Heard>, h: Heard, now: int)
    requires Usable(h) && h.nodeId !in Merged(t, heard, now)
    ensures h.nodeId in Merged(t, heard + [h], now)
    ensures Merged(t, heard + [h], now)[h.nodeId] == NewRow(h, now)
  {
    HeardIdsAppend(heard, h);
    FirstAboutNew(heard, h);
  }

  // What a pushed table says of a node is what that table has.
  lemma {:induction false} HeardOfRows(t: NodeTable, ids: seq<string>, k: nat)
    requires (forall id :: id in ids ==> id in t) && k < |ids|
    ensures |HeardOf(t, ids)| == |ids|
    ensures HeardOf(t, ids)[k] == Heard(ids[k], t[ids[k]].address, t[ids[k]].nodeType, t[ids[k]].access)
  {
    if k > 0 {
      HeardOfRows(t, ids[1..], k - 1);
    } else if |ids| > 1 {
      HeardOfRows(t, ids[1..], 0);
    }
  }

  lemma FirstOfRows(t: NodeTable, ids: seq<string>, id: string)
    requires (forall x :: x in ids ==> x in t) && id in HeardIds(HeardOf(t, ids))
    ensures id in t
    ensures FirstAbout(HeardOf(t, ids), id) == Heard(id, t[id].address, t[id].nodeType, t[id].access)
  {
    var heard := HeardOf(t, ids);
    var h := FirstAbout(heard, id);
    assert h in heard && h.nodeId == id;
    var k :| 0 <= k < |heard| && heard[k] == h;
    if ids != [] {
      HeardOfRows(t, ids, 0);
      HeardOfRows(t, ids, k);
      assert ids[k] in ids;
    }
  }

  // One turn of the merge loop.
  lemma MergeOne(t: NodeTable, heard: seq<Heard>, h: Heard, now: int)
    ensures Merged(t, heard + [h], now)
         == if Usable(h) && h.nodeId !in Merged(t, heard, now)
            then Merged(t, heard, now)[h.nodeId := NewRow(h, now)]
            else Merged(t, heard, now)
  {
    var before, after := Merged(t, heard, now), Merged(t, heard + [h], now);
    var expected := if Usable(h) && h.nodeId !in before then before[h.nodeId := NewRow(h, now)] else before;
    assert after.Keys == expected.Keys by {
      HeardIdsAppend(heard, h);
    }
    forall id | id in expected
      ensures after[id] == expected[id]
    {
      if id in before {
        MergeOneKeeps(t, heard, h, now, id);
      } else {
        MergeOneAdds(t, heard, h, now);
      }
    }
    assert after == expected;
  }

  lemma MergeNothing(t: NodeTable, now: int)
    ensures Merged(t, [], now) == t
  {
  }

  /** The i-th word is the first that names an address for id. */
  ghost predicate FirstNaming(heard: seq<Heard>, id: string, i: nat) {
    && i < |heard| && id != "" && heard[i].nodeId == id && heard[i].address != ""
    && forall j :: 0 <= j < i ==> heard[j].nodeId != id || heard[j].address == ""
  }

  /** The row of a node that is new, from this word of it. */
  ghost predicate RowFrom(r: NodeRow, h: Heard, now: int) {
    && r.address == h.address && r.nodeType == h.nodeType && r.access == h.access
    && r.cert == [] && r.parentNode == ""
    && r.status == "online" && r.missedPings == 0 && r.lastSeen == r.addedAt == now
  }

  // The table after a merge: known rows untouched, whatever their status; exactly the unknown
  // ids added for which an address is named, each as the first word of it says.
  lemma MergeMeaning(t: NodeTable, heard: seq<Heard>, now: int, id: string)
    ensures id in t ==> id in Merged(t, heard, now) && Merged(t, heard, now)[id] == t[id]
    ensures id !in t ==>
              if id in Merged(t, heard, now)
              then exists i: nat :: FirstNaming(heard, id, i) && RowFrom(Merged(t, heard, now)[id], heard[i], now)
              else forall i :: 0 <= i < |heard| && heard[i].nodeId == id ==> id == "" || heard[i].address == ""
  {
    if id !in t && id in HeardIds(heard) {
      var i := FirstAboutIsFirst(heard, id);
      assert FirstNaming(heard, id, i) && RowFrom(Merged(t, heard, now)[id], heard[i], now);
    }
  }

  lemma {:induction false} FirstAboutIsFirst(heard: seq<Heard>, id: string) returns (i: nat)
    requires id in HeardIds(heard)
    ensures FirstNaming(heard, id, i) && heard[i] == FirstAbout(heard, id)
  {
    if Usable(heard[0]) && heard[0].nodeId == id {
      i := 0;
    } else {
      var k :| 0 <= k < |heard| && Usable(heard[k]) && heard[k].nodeId == id;
      assert heard[1..][k - 1] == heard[k];
      i := FirstAboutIsFirst(heard[1..], id);
      i := i + 1;
    }
  }

  /** The table after the merge loop. */
  ghost function MergeOf(t: NodeTable, entries: seq<Entry>, now: int): NodeTable {
    Merged(t, Heeded(t.Keys, entries), now)
  }

  lemma {:induction false} HeededAgain(known: set<string>, entries: seq<Entry>)
    ensures Heeded(known + HeardIds(Heeded(known, entries)), entries) == Heeded(known, entries)
    decreases |entries|
  {
    if entries != [] && !Stumbles(known, entries[0]) {
      var h, rest := entries[0].heard, Heeded(Knowing(known, entries[0].heard), entries[1..]);
      PrependIds(h, rest);
      var after := known + HeardIds(Heeded(known, entries));
      assert Knowing(after, h) == Knowing(known, h) + HeardIds(rest);
      HeededAgain(Knowing(known, h), entries[1..]);
    }
  }

  lemma PrependIds(h: Heard, rest: seq<Heard>)
    ensures HeardIds([h] + rest) == HeardIds(rest) + (if Usable(h) then {h.nodeId} else {})
  {
    var all := [h] + rest;
    forall id | id in HeardIds(rest)
      ensures id in HeardIds(all)
    {
      var i :| 0 <= i < |rest| && Usable(rest[i]) && rest[i].nodeId == id;
      assert all[i + 1] == rest[i];
    }
    assert all[0] == h;
  }

  // Merging the same list again changes nothing, whatever is wrong with its entries.
  lemma MergeIdempotent(t: NodeTable, entries: seq<Entry>, now: int, later: int)
    ensures MergeOf(MergeOf(t, entries, now), entries, later) == MergeOf(t, entries, now)
  {
    HeededAgain(t.Keys, entries);
    assert MergeOf(t, entries, now).Keys == t.Keys + HeardIds(Heeded(t.Keys, entries));
  }

  lemma LegibleIds(t: NodeTable, entries: seq<Entry>, now: int)
    requires AllLegible(entries)
    ensures MergeOf(t, entries, now).Keys == t.Keys + HeardIds(AllHeard(entries))
  {
    LegibleHeeded(t.Keys, entries);
  }

  // The order of two legible lists does not matter to who is known afterwards.
  lemma MergeOrder(t: NodeTable, a: seq<Entry>, b: seq<Entry>, m: int, n: int)
    requires AllLegible(a) && AllLegible(b)
    ensures MergeOf(MergeOf(t, a, m), b, n).Keys == MergeOf(MergeOf(t, b, m), a, n).Keys
         == t.Keys + HeardIds(AllHeard(a)) + HeardIds(AllHeard(b))
  {
    var ta, tb := MergeOf(t, a, m), MergeOf(t, b, m);
    LegibleIds(t, a, m);
    LegibleIds(t, b, m);
    LegibleIds(ta, b, n);
    LegibleIds(tb, a, n);
  }

  // Nothing is heeded that was not said.
  lemma HeededIds(known: set<string>, entries: seq<Entry>)
    ensures HeardIds(Heeded(known, entries)) <= HeardIds(AllHeard(entries))
  {
    HeededPart(known, entries);
    var part, all := Heeded(known, entries), AllHeard(entries);
    forall id | id in HeardIds(part)
      ensures id in HeardIds(all)
    {
      var i :| 0 <= i < |part| && Usable(part[i]) && part[i].nodeId == id;
      assert all[i] == part[i];
    }
  }

  // The order of lists with illegible entries does: such an entry stops the loop, unless its
  // id is known.
  lemma IllegibleOrderMatters(x: Heard, y: Heard, now: int)
    requires Usable(x) && Usable(y) && x.nodeId != y.nodeId
    ensures var a, b := [Entry(x, false), Entry(y, true)], [Entry(x, true)];
            && y.nodeId !in MergeOf(MergeOf(map[], a, now), b, now)
            && y.nodeId in MergeOf(MergeOf(map[], b, now), a, now)
  {
    var a, b := [Entry(x, false), Entry(y, true)], [Entry(x, true)];
    var none: NodeTable := map[];
    StopsAtOnce(none.Keys, a);
    assert MergeOf(none, a, now) == none;
    PrependIds(x, []);
    assert b[1..] == [] && AllHeard(b) == [x] + AllHeard([]);
    LegibleIds(none, b, now);
    var t := MergeOf(none, b, now);
    assert x.nodeId in t;
    GoesOn(t.Keys, x, y);
    PrependIds(y, []);
    PrependIds(x, [y]);
  }

  lemma StopsAtOnce(known: set<string>, entries: seq<Entry>)
    requires entries != [] && Stumbles(known, entries[0])
    ensures Heeded(known, entries) == []
  {
  }

  lemma GoesOn(known: set<string>, x: Heard, y: Heard)
    requires x.nodeId in known
    ensures Heeded(known, [Entry(x, false), Entry(y, true)]) == [x] + [y]
  {
    var a := [Entry(x, false), Entry(y, true)];
    var rest, k := a[1..], Knowing(known, x);
    assert a[0] == Entry(x, false) && !Stumbles(known, a[0]);
    assert rest == [Entry(y, true)] && rest[0] == Entry(y, true) && !Stumbles(k, rest[0]);
    assert rest[1..] == [];
    assert Heeded(k, rest) == [y] + Heeded(Knowing(k, y), rest[1..]);
    assert Heeded(Knowing(k, y), []) == [];
    assert Heeded(known, a) == [x] + Heeded(k, rest);
  }
}
