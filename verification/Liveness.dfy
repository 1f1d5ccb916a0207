// The node table against its history. A row holds a counter, a status and a time; this
// module says what they mean in terms of everything that ever happened to the node.
module Liveness {
  import opened Tables
  import opened Merge
  import opened Machine

  datatype TableEvent =
    | Introduced(id: string, address: string, access: string, now: int)   // genesis, join
    | Told(heard: seq<Heard>, now: int)                                   // gossip
    | Pinged(id: string, ok: bool, now: int)                              // a ping's outcome, or a pong
    | Removed(id: string, now: int)
    | Cleaned(now: int)

  ghost function After(t: NodeTable, e: TableEvent): NodeTable {
    match e
    case Introduced(id, address, access, now) => UpsertNode(t, id, SelfRow(address, access, now), now)
    case Told(heard, now) => Merged(t, heard, now)
    case Pinged(id, ok, now) => UpdateNodePing(t, id, ok, now)
    case Removed(id, _) => RemoveNode(t, id)
    case Cleaned(now) => CleanupNodes(t, now)
  }

  ghost function AfterAll(t: NodeTable, h: seq<TableEvent>): NodeTable {
    if h == [] then t else After(AfterAll(t, h[..|h| - 1]), h[|h| - 1])
  }

  /** The table of a node with this history. */
  ghost function Table(h: seq<TableEvent>): NodeTable {
    AfterAll(map[], h)
  }

  // --- what a history says about a node ---

  /** The event is news that x is alive. */
  predicate Vouches(e: TableEvent, x: string) {
    (e.Introduced? && e.id == x) || (e.Pinged? && e.id == x && e.ok)
  }

  predicate Fails(e: TableEvent, x: string) {
    e.Pinged? && e.id == x && !e.ok
  }

  /** How many pings of x failed from index `from` on. */
  ghost function FailCount(h: seq<TableEvent>, from: nat, x: string): nat {
    if |h| <= from then 0
    else FailCount(h[..|h| - 1], from, x) + if Fails(h[|h| - 1], x) then 1 else 0
  }

  /** The type and access under which an inserting event enters x. */
  ghost predicate EnteredAs(e: TableEvent, x: string, nodeType: Column, access: Column) {
    match e
    case Introduced(id, _, a, _) => id == x && nodeType == Words("permanent") && access == Words(a)
    case Told(heard, _) => x in HeardIds(heard)
                           && nodeType == FirstAbout(heard, x).nodeType && access == FirstAbout(heard, x).access
    case _ => false
  }

  predicate Introduces(e: TableEvent, x: string) {
    e.Introduced? && e.id == x
  }

  /** The latest genesis or join since birth that named x, or else what entered it. */
  ghost function NamedAt(h: seq<TableEvent>, x: string, birth: nat): (i: nat)
    requires birth < |h|
    ensures birth <= i < |h| && (i == birth || Introduces(h[i], x))
    ensures forall k :: i < k < |h| ==> !Introduces(h[k], x)
  {
    var n := |h| - 1;
    if n == birth || Introduces(h[n], x) then n
    else
      assert forall k :: 0 <= k < n ==> h[..n][k] == h[k];
      NamedAt(h[..n], x, birth)
  }

  /** The address under which this event names x. */
  ghost function AddressIn(e: TableEvent, x: string): string {
    match e
    case Introduced(_, address, _, _) => address
    case Told(heard, _) => if x in HeardIds(heard) then FirstAbout(heard, x).address else ""
    case _ => ""
  }

  /** h[birth] put x into the table and it has been there since. */
  ghost predicate LifeSince(h: seq<TableEvent>, x: string, birth: nat) {
    && birth < |h|
    && x !in Table(h[..birth])
    && forall k :: birth < k <= |h| ==> x in Table(h[..k])
  }

  /** h[last] is the insert or the latest news that x is alive. */
  ghost predicate LatestNews(h: seq<TableEvent>, x: string, birth: nat, last: nat) {
    && birth <= last < |h|
    && (last == birth || Vouches(h[last], x))
    && forall k :: last < k < |h| ==> !Vouches(h[k], x)
  }

  /** The row is what the history says. */
  ghost predicate RowTells(h: seq<TableEvent>, x: string, birth: nat, last: nat, r: NodeRow)
    requires birth < |h| && last < |h|
  {
    && r.missedPings == FailCount(h, last + 1, x)
    && r.status == (if r.missedPings >= MISSED_PINGS_OFFLINE then OFFLINE else ONLINE)
    && r.lastSeen == h[last].now
    && r.addedAt == h[birth].now
    && EnteredAs(h[birth], x, r.nodeType, r.access)
    && r.address == AddressIn(h[NamedAt(h, x, birth)], x)
    && r.cert == [] && r.parentNode == ""
  }

  ghost predicate Refines(h: seq<TableEvent>, x: string, birth: nat, last: nat) {
    && x in Table(h)
    && LifeSince(h, x, birth)
    && LatestNews(h, x, birth, last)
    && RowTells(h, x, birth, last, Table(h)[x])
  }

  lemma PrefixTables(h: seq<TableEvent>)
    requires h != []
    ensures forall k :: 0 <= k <= |h| - 1 ==> h[..|h| - 1][..k] == h[..k]
    ensures Table(h) == After(Table(h[..|h| - 1]), h[|h| - 1]) && h[..|h|] == h
  {
  }

  // A row that the last event entered.
  lemma Entered(t: NodeTable, e: TableEvent, x: string)
    requires x !in t && x in After(t, e)
    ensures var r := After(t, e)[x];
            r.missedPings == 0 && r.status == ONLINE && r.lastSeen == e.now && r.addedAt == e.now
            && EnteredAs(e, x, r.nodeType, r.access)
            && r.address == AddressIn(e, x) && r.cert == [] && r.parentNode == ""
  {
  }

  // A row that was there stays as it was, but for news of it and failures of its pings.
  lemma Carried(t: NodeTable, e: TableEvent, x: string)
    requires x in t && x in After(t, e)
    requires t[x].status == if t[x].missedPings >= MISSED_PINGS_OFFLINE then OFFLINE else ONLINE
    ensures var r := After(t, e)[x];
            && r.addedAt == t[x].addedAt && r.nodeType == t[x].nodeType && r.access == t[x].access
            && r.address == (if Introduces(e, x) then AddressIn(e, x) else t[x].address)
            && r.cert == (if Introduces(e, x) then [] else t[x].cert) && r.parentNode == t[x].parentNode
            && r.status == (if r.missedPings >= MISSED_PINGS_OFFLINE then OFFLINE else ONLINE)
            && (if Vouches(e, x) then r.missedPings == 0 && r.lastSeen == e.now
                else r.missedPings == t[x].missedPings + (if Fails(e, x) then 1 else 0) && r.lastSeen == t[x].lastSeen)
  {
  }

  lemma LifeGoesOn(h: seq<TableEvent>, x: string, birth: nat)
    requires h != [] && LifeSince(h[..|h| - 1], x, birth) && x in Table(h)
    ensures LifeSince(h, x, birth)
  {
    var n := |h| - 1;
    PrefixTables(h);
    assert h[..n][..birth] == h[..birth];
    forall k | birth < k <= |h|
      ensures x in Table(h[..k])
    {
      if k <= n {
        assert h[..n][..k] == h[..k];
      }
    }
  }

  lemma RowGoesOn(h: seq<TableEvent>, x: string, birth: nat, last: nat)
    requires h != [] && Refines(h[..|h| - 1], x, birth, last) && x in Table(h)
    ensures if Vouches(h[|h| - 1], x) then RowTells(h, x, birth, |h| - 1, Table(h)[x])
            else RowTells(h, x, birth, last, Table(h)[x])
  {
    PrefixTables(h);
    var n := |h| - 1;
    assert h[..n][birth] == h[birth] && h[..n][last] == h[last];
    Carried(Table(h[..n]), h[n], x);
    NameGoesOn(h, x, birth);
  }

  lemma NameGoesOn(h: seq<TableEvent>, x: string, birth: nat)
    requires birth < |h| - 1
    ensures var n := |h| - 1;
            h[NamedAt(h, x, birth)] == if Introduces(h[n], x) then h[n] else h[..n][NamedAt(h[..n], x, birth)]
  {
  }

  // In every history each row is exactly what the history says: the misses are the failed
  // pings since the insert or the latest sign of life, offline means three or more, last_seen
  // is the time of that sign, type, access and added_at are those of the insert that began the
  // row's present life, and the address is that of the latest genesis or join since, or else
  // of that insert.
  lemma {:induction false} RowRefinesHistory(h: seq<TableEvent>, x: string) returns (birth: nat, last: nat)
    requires x in Table(h)
    ensures Refines(h, x, birth, last)
  {
    var n := |h| - 1;
    PrefixTables(h);
    if x !in Table(h[..n]) {
      birth, last := n, n;
      Entered(Table(h[..n]), h[n], x);
    } else {
      birth, last := RowRefinesHistory(h[..n], x);
      last := StillRefines(h, x, birth, last);
    }
  }

  lemma StillRefines(h: seq<TableEvent>, x: string, birth: nat, last: nat) returns (last1: nat)
    requires h != [] && Refines(h[..|h| - 1], x, birth, last) && x in Table(h)
    ensures Refines(h, x, birth, last1)
  {
    LifeGoesOn(h, x, birth);
    RowGoesOn(h, x, birth, last);
    last1 := if Vouches(h[|h| - 1], x) then |h| - 1 else last;
    NewsGoesOn(h, x, birth, last);
  }

  lemma NewsGoesOn(h: seq<TableEvent>, x: string, birth: nat, last: nat)
    requires h != [] && LatestNews(h[..|h| - 1], x, birth, last)
    ensures LatestNews(h, x, birth, if Vouches(h[|h| - 1], x) then |h| - 1 else last)
  {
    var n := |h| - 1;
    assert forall k :: 0 <= k < n ==> h[..n][k] == h[k];
  }

  // Removal is sound and complete: a cleanup deletes a row exactly when the whole history
  // shows three failed pings or more since the last sign of life, and that sign is more
  // than 72 hours old.
  lemma CleanupExact(h: seq<TableEvent>, x: string, now: int) returns (birth: nat, last: nat)
    requires x in Table(h)
    ensures Refines(h, x, birth, last)
    ensures x !in Table(h + [Cleaned(now)])
            <==> FailCount(h, last + 1, x) >= 3 && now - h[last].now > 72 * 3600
  {
    birth, last := RowRefinesHistory(h, x);
    assert (h + [Cleaned(now)])[..|h|] == h;
  }

  // The node's own row never ages, as long as no ping of oneself fails: it is online with
  // no misses, and no cleanup takes it.
  lemma OwnRowNeverAges(h: seq<TableEvent>, me: string, now: int)
    requires me in Table(h)
    requires forall k :: 0 <= k < |h| ==> !Fails(h[k], me)
    ensures Table(h)[me].status == ONLINE && Table(h)[me].missedPings == 0
    ensures me in CleanupNodes(Table(h), now)
  {
    var birth, last := RowRefinesHistory(h, me);
    NoFailures(h, last + 1, me);
  }

  lemma {:induction false} NoFailures(h: seq<TableEvent>, from: nat, x: string)
    requires forall k :: 0 <= k < |h| ==> !Fails(h[k], x)
    ensures FailCount(h, from, x) == 0
  {
    if |h| > from {
      NoFailures(h[..|h| - 1], from, x);
    }
  }

  // --- a node that never answers ---

  ghost predicate Mentions(e: TableEvent, x: string) {
    match e
    case Told(heard, _) => x in HeardIds(heard)
    case Cleaned(_) => false
    case _ => e.id == x
  }

  /** What lies between two cleanups, in which x is probed in vain and not otherwise mentioned. */
  ghost predicate InVain(pre: seq<TableEvent>, x: string) {
    forall k :: 0 <= k < |pre| ==> !pre[k].Cleaned? && (Mentions(pre[k], x) ==> Fails(pre[k], x))
  }

  ghost predicate Untouched(pre: seq<TableEvent>, x: string) {
    forall k :: 0 <= k < |pre| ==> !pre[k].Cleaned? && !Mentions(pre[k], x)
  }

  /** x's row after so many failed pings on top of those it had. */
  function Aged(r: NodeRow, fails: nat): NodeRow {
    if fails == 0 then r
    else
      r.(missedPings := r.missedPings + fails,
         status := if r.missedPings + fails >= MISSED_PINGS_OFFLINE then OFFLINE else r.status)
  }

  lemma {:induction false} VainPings(t: NodeTable, pre: seq<TableEvent>, x: string)
    requires x in t && InVain(pre, x)
    ensures x in AfterAll(t, pre) && AfterAll(t, pre)[x] == Aged(t[x], FailCount(pre, 0, x))
  {
    if pre != [] {
      var n := |pre| - 1;
      VainPings(t, pre[..n], x);
      StepInVain(AfterAll(t, pre[..n]), pre[n], x);
    }
  }

  lemma StepInVain(t: NodeTable, e: TableEvent, x: string)
    requires x in t && !e.Cleaned? && (Mentions(e, x) ==> Fails(e, x))
    ensures x in After(t, e) && After(t, e)[x] == Aged(t[x], if Fails(e, x) then 1 else 0)
  {
  }

  lemma {:induction false} StaysAbsent(t: NodeTable, pre: seq<TableEvent>, x: string)
    requires x !in t && Untouched(pre, x)
    ensures x !in AfterAll(t, pre)
  {
    if pre != [] {
      var n := |pre| - 1;
      StaysAbsent(t, pre[..n], x);
    }
  }

  // --- removal, beat by beat ---

  /** What happens to a silent node: a round fails on it and cleans up, or nothing does. */
  datatype Beat = Quiet | Rounded(cleanedAt: int)

  /** x's row goes through this beat. */
  ghost predicate Beats(t: NodeTable, t1: NodeTable, b: Beat, x: string) {
    match b
    case Quiet => (x in t1 <==> x in t) && (x in t ==> t1[x] == t[x])
    case Rounded(at) =>
      && (x in t1 <==> x in t && !NodeExpired(Aged(t[x], 1), at))
      && (x in t1 ==> t1[x] == Aged(t[x], 1))
  }

  /** When the rounds were. */
  function Times(beats: seq<Beat>): seq<int> {
    if beats == [] then []
    else
      var n := |beats| - 1;
      Times(beats[..n]) + if beats[n].Rounded? then [beats[n].cleanedAt] else []
  }

  /** Round i, counted from 0, is the third failure or later and comes 72 hours after the last sign of life. */
  ghost predicate Doomed(r: NodeRow, times: seq<int>, i: nat)
    requires i < |times|
  {
    r.missedPings + i + 1 >= MISSED_PINGS_OFFLINE && times[i] - r.lastSeen > 72 * 3600
  }

  ghost predicate NeverDoomed(r: NodeRow, times: seq<int>) {
    forall i :: 0 <= i < |times| ==> !Doomed(r, times, i)
  }

  /** What has become of x's row after rounds at these times. */
  ghost predicate GonePromptly(r: NodeRow, times: seq<int>, t: NodeTable, x: string) {
    && (x in t <==> NeverDoomed(r, times))
    && (x in t ==> t[x] == Aged(r, |times|)
                   && (t[x].status == OFFLINE <==> r.missedPings + |times| >= MISSED_PINGS_OFFLINE))
  }

  lemma DoomedBefore(r: NodeRow, times: seq<int>, at: int)
    ensures NeverDoomed(r, times + [at]) <==> NeverDoomed(r, times) && !Doomed(r, times + [at], |times|)
  {
    var all := times + [at];
    assert forall i :: 0 <= i < |times| ==> (Doomed(r, times, i) <==> Doomed(r, all, i));
  }

  predicate StatusFits(r: NodeRow) {
    r.status == if r.missedPings >= MISSED_PINGS_OFFLINE then OFFLINE else ONLINE
  }

  lemma OneBeat(r: NodeRow, times: seq<int>, t: NodeTable, t1: NodeTable, b: Beat, x: string)
    requires StatusFits(r) && GonePromptly(r, times, t, x) && Beats(t, t1, b, x)
    ensures GonePromptly(r, times + (if b.Rounded? then [b.cleanedAt] else []), t1, x)
  {
    match b
    case Quiet => assert times + [] == times;
    case Rounded(at) => DoomedBefore(r, times, at);
  }

  // Removal is prompt: a node that answers nothing is offline from its third failure on and
  // leaves the table in the first round, third failure or later, that comes more than 72 hours
  // after its last sign of life - in that round and not before.
  lemma {:induction false} RemovalPrompt(ts: seq<NodeTable>, beats: seq<Beat>, x: string)
    requires |ts| == |beats| + 1 && forall i :: 0 <= i < |beats| ==> Beats(ts[i], ts[i + 1], beats[i], x)
    requires x in ts[0] && StatusFits(ts[0][x])
    ensures GonePromptly(ts[0][x], Times(beats), ts[|beats|], x)
  {
    if beats != [] {
      var n := |beats| - 1;
      RemovalPrompt(ts[..n + 1], beats[..n], x);
      OneBeat(ts[0][x], Times(beats[..n]), ts[n], ts[n + 1], beats[n], x);
    }
  }

  /** In this round x, if known, is pinged once and in vain; nothing else mentions it. */
  ghost predicate SilentRound(t: NodeTable, pre: seq<TableEvent>, x: string) {
    if x in t then InVain(pre, x) && FailCount(pre, 0, x) == 1 else Untouched(pre, x)
  }

  // Its events and the cleanup are a beat,
  lemma SilentRoundBeats(t: NodeTable, pre: seq<TableEvent>, at: int, x: string)
    requires SilentRound(t, pre, x)
    ensures Beats(t, CleanupNodes(AfterAll(t, pre), at), Rounded(at), x)
  {
    if x in t {
      VainPings(t, pre, x);
    } else {
      StaysAbsent(t, pre, x);
    }
  }

  // and so are events that do not mention x.
  lemma UntouchedBeats(t: NodeTable, pre: seq<TableEvent>, x: string)
    requires Untouched(pre, x)
    ensures Beats(t, AfterAll(t, pre), Quiet, x)
  {
    if x in t {
      VainPings(t, pre, x);
      NoFailures(pre, 0, x);
    } else {
      StaysAbsent(t, pre, x);
    }
  }
}
