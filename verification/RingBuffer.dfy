/**
 The store of captured flows: internal/store/ringbuffer.go. A ring of slots, an
 index from flow id to slot and a side map of flow data behave as one bounded
 queue.
 */
module RingBuffer {
  import opened Common

  type FlowID = string

  /** The id and, abstractly, every other field of a flow's summary. */
  datatype FlowMeta = FlowMeta(id: FlowID, info: string)

  datatype FlowData = FlowData(request: string, response: string)

  const EMPTY_DATA := FlowData("", "")

  // ----- the bounded queue -----

  /** The last `n` elements of a sequence, or all of it. */
  function LastN<T>(s: seq<T>, n: nat): seq<T> {
    if |s| <= n then s else s[|s| - n..]
  }

  function Ids(q: seq<FlowMeta>): seq<FlowID> {
    seq(|q|, i requires 0 <= i < |q| => q[i].id)
  }

  ghost predicate Distinct(q: seq<FlowMeta>) {
    forall i, j :: 0 <= i < j < |q| ==> q[i].id != q[j].id
  }

  predicate Live(q: seq<FlowMeta>, id: FlowID) {
    exists i :: 0 <= i < |q| && q[i].id == id
  }

  /** A change to a flow's summary that leaves its id alone. */
  ghost predicate KeepsId(fn: FlowMeta -> FlowMeta) {
    forall m :: fn(m).id == m.id
  }

  function UpdateAll(q: seq<FlowMeta>, id: FlowID, fn: FlowMeta -> FlowMeta): (r: seq<FlowMeta>)
    ensures |r| == |q|
  {
    seq(|q|, i requires 0 <= i < |q| => if q[i].id == id then fn(q[i]) else q[i])
  }

  /** What the buffer stands for: the live flows, oldest first, and their data. */
  datatype Queue = Queue(flows: seq<FlowMeta>, data: map<FlowID, FlowData>)
  {
    ghost predicate Valid(capacity: nat) {
      && |flows| <= capacity
      && Distinct(flows)
      && forall id :: id in data ==> Live(flows, id)
    }
  }

  datatype Op =
    | Add(meta: FlowMeta)
    | Update(id: FlowID, fn: FlowMeta -> FlowMeta)
    | UpdateData(id: FlowID, change: FlowData -> FlowData)
    | SetData(id: FlowID, d: FlowData)

  /** The callers' side: new flows have new ids and updates keep the id. */
  ghost predicate Allowed(q: Queue, op: Op) {
    match op
    case Add(m) => !Live(q.flows, m.id)
    case Update(_, fn) => KeepsId(fn)
    case _ => true
  }

  function Apply(q: Queue, capacity: nat, op: Op): Queue
    requires capacity >= 1
  {
    match op
    case Add(m) =>
      var flows := LastN(q.flows + [m], capacity);
      Queue(flows, if |q.flows| < capacity then q.data else q.data - {q.flows[0].id})
    case Update(id, fn) => q.(flows := UpdateAll(q.flows, id, fn))
    case UpdateData(id, change) =>
      if Live(q.flows, id) then
        q.(data := q.data[id := change(if id in q.data then q.data[id] else EMPTY_DATA)])
      else q
    case SetData(id, d) =>
      if Live(q.flows, id) then q.(data := q.data[id := d]) else q
  }

  lemma ApplyKeepsValid(q: Queue, capacity: nat, op: Op)
    requires capacity >= 1 && q.Valid(capacity) && Allowed(q, op)
    ensures Apply(q, capacity, op).Valid(capacity)
  {
    hide Distinct, Live, UpdateAll, LastN;
    match op {
      case Add(m) =>
        DistinctLonger(q.flows, m);
        LastStayDistinct(q.flows + [m], capacity);
        forall id | id in Apply(q, capacity, op).data ensures Live(Apply(q, capacity, op).flows, id) {
          LiveAfterAdd(q.flows, m, capacity, id);
        }
      case Update(id, fn) =>
        UpdateKeepsLive(q.flows, id, fn);
      case _ =>
    }
  }

  lemma DistinctLonger(q: seq<FlowMeta>, m: FlowMeta)
    requires Distinct(q) && !Live(q, m.id)
    ensures Distinct(q + [m])
  {
  }

  lemma LastStayDistinct(q: seq<FlowMeta>, n: nat)
    requires Distinct(q)
    ensures Distinct(LastN(q, n)) && |LastN(q, n)| <= n
  {
  }

  /** An add evicts the oldest flow of a full queue and nobody else. */
  lemma LiveAfterAdd(q: seq<FlowMeta>, m: FlowMeta, n: nat, id: FlowID)
    requires 1 <= n && |q| <= n && Distinct(q)
    ensures id != m.id ==>
              (Live(LastN(q + [m], n), id) <==> Live(q, id) && !(|q| == n && q[0].id == id))
    ensures Live(q, id) && !(|q| == n && q[0].id == id) ==> Live(LastN(q + [m], n), id)
  {
    var r := LastN(q + [m], n);
    if Live(q, id) && !(|q| == n && q[0].id == id) {
      var i :| 0 <= i < |q| && q[i].id == id;
      assert r[if |q| < n then i else i - 1].id == id;
    }
    if Live(r, id) && id != m.id {
      var i :| 0 <= i < |r| && r[i].id == id;
      assert q[if |q| < n then i else i + 1].id == id;
    }
  }

  lemma UpdateKeepsLive(q: seq<FlowMeta>, id: FlowID, fn: FlowMeta -> FlowMeta)
    requires KeepsId(fn)
    ensures Distinct(q) ==> Distinct(UpdateAll(q, id, fn))
    ensures forall x :: Live(UpdateAll(q, id, fn), x) <==> Live(q, x)
  {
    var r := UpdateAll(q, id, fn);
    forall x ensures Live(r, x) <==> Live(q, x) {
      if Live(q, x) {
        var i :| 0 <= i < |q| && q[i].id == x;
        assert r[i].id == x;
      }
    }
  }

  // ----- whole runs -----

  ghost predicate AllAllowed(capacity: nat, ops: seq<Op>)
    requires capacity >= 1
  {
    ops == [] ||
    var before := ops[..|ops| - 1];
    AllAllowed(capacity, before) && Allowed(Run(capacity, before), ops[|ops| - 1])
  }

  function Run(capacity: nat, ops: seq<Op>): Queue
    requires capacity >= 1
  {
    if ops == [] then Queue([], map[])
    else Apply(Run(capacity, ops[..|ops| - 1]), capacity, ops[|ops| - 1])
  }

  /**
   The whole history without any bound: every flow ever added, in order, where
   an update reaches only flows that are still among the last `capacity`.
   */
  function History(capacity: nat, ops: seq<Op>): seq<FlowMeta> {
    if ops == [] then []
    else
      var h := History(capacity, ops[..|ops| - 1]);
      match ops[|ops| - 1]
      case Add(m) => h + [m]
      case Update(id, fn) =>
        var live := LastN(h, capacity);
        h[..|h| - |live|] + UpdateAll(live, id, fn)
      case _ => h
  }

  lemma LastOfGrown(h: seq<FlowMeta>, m: FlowMeta, n: nat)
    requires n >= 1
    ensures LastN(LastN(h, n) + [m], n) == LastN(h + [m], n)
  {
  }

  lemma LastOfUpdated(h: seq<FlowMeta>, n: nat, id: FlowID, fn: FlowMeta -> FlowMeta)
    ensures var live := LastN(h, n);
            LastN(h[..|h| - |live|] + UpdateAll(live, id, fn), n) == UpdateAll(live, id, fn)
  {
  }

  /** Over every run the queue holds exactly the last `capacity` flows. */
  lemma {:induction false} RunHoldsLastFlows(capacity: nat, ops: seq<Op>)
    requires capacity >= 1 && AllAllowed(capacity, ops)
    ensures Run(capacity, ops).Valid(capacity)
    ensures Run(capacity, ops).flows == LastN(History(capacity, ops), capacity)
  {
    hide LastN, UpdateAll;
    if ops == [] {
      LastOfNothing(capacity);
    } else {
      var before, op := ops[..|ops| - 1], ops[|ops| - 1];
      RunHoldsLastFlows(capacity, before);
      ApplyKeepsValid(Run(capacity, before), capacity, op);
      match op {
        case Add(m) => LastOfGrown(History(capacity, before), m, capacity);
        case Update(id, fn) => LastOfUpdated(History(capacity, before), capacity, id, fn);
        case _ =>
      }
    }
  }

  lemma LastOfNothing(n: nat)
    ensures LastN<FlowMeta>([], n) == []
  {
  }

  function AddedIds(ops: seq<Op>): seq<FlowID> {
    if ops == [] then []
    else
      AddedIds(ops[..|ops| - 1]) + (if ops[|ops| - 1].Add? then [ops[|ops| - 1].meta.id] else [])
  }

  /** Updates never change which flows were added, or their order. */
  lemma {:induction false} HistoryIds(capacity: nat, ops: seq<Op>)
    requires capacity >= 1 && AllAllowed(capacity, ops)
    ensures Ids(History(capacity, ops)) == AddedIds(ops)
  {
    if ops != [] {
      var before := ops[..|ops| - 1];
      HistoryIds(capacity, before);
      match ops[|ops| - 1] {
        case Add(m) => assert Ids(History(capacity, before) + [m]) == Ids(History(capacity, before)) + [m.id];
        case Update(id, fn) => UpdateKeepsIds(History(capacity, before), capacity, id, fn);
        case _ =>
      }
    }
  }

  lemma UpdateKeepsIds(h: seq<FlowMeta>, n: nat, id: FlowID, fn: FlowMeta -> FlowMeta)
    requires KeepsId(fn)
    ensures var live := LastN(h, n); Ids(h[..|h| - |live|] + UpdateAll(live, id, fn)) == Ids(h)
  {
  }

  /** The live ids after a run are the last `capacity` ids added. */
  lemma LiveIdsAreLastAdded(capacity: nat, ops: seq<Op>)
    requires capacity >= 1 && AllAllowed(capacity, ops)
    ensures Ids(Run(capacity, ops).flows) == LastN(AddedIds(ops), capacity)
  {
    hide Run, History, AllAllowed, AddedIds, LastN, Ids;
    RunHoldsLastFlows(capacity, ops);
    HistoryIds(capacity, ops);
    IdsOfLast(History(capacity, ops), capacity);
  }

  lemma IdsOfLast(h: seq<FlowMeta>, n: nat)
    ensures Ids(LastN(h, n)) == LastN(Ids(h), n)
  {
  }

  /** What the data operations since the last add of a flow make of its data. */
  function DataSinceAdd(ops: seq<Op>, id: FlowID): Option<FlowData> {
    if ops == [] then None
    else
      var before := DataSinceAdd(ops[..|ops| - 1], id);
      match ops[|ops| - 1]
      case Add(m) => if m.id == id then None else before
      case UpdateData(x, change) =>
        if x == id then Some(change(if before.Some? then before.value else EMPTY_DATA)) else before
      case SetData(x, d) => if x == id then Some(d) else before
      case Update(_, _) => before
  }

  function DataOf(q: Queue, id: FlowID): Option<FlowData> {
    if id in q.data then Some(q.data[id]) else None
  }

  /** A flow that was evicted and added again never shows its old data. */
  lemma {:induction false} LiveDataIsSinceAdd(capacity: nat, ops: seq<Op>, id: FlowID)
    requires capacity >= 1 && AllAllowed(capacity, ops)
    ensures DataOf(Run(capacity, ops), id) ==
            if Live(Run(capacity, ops).flows, id) then DataSinceAdd(ops, id) else None
  {
    hide Live, LastN, UpdateAll;
    if ops == [] {
      NobodyIsLive(id);
    } else {
      var before := ops[..|ops| - 1];
      LiveDataIsSinceAdd(capacity, before, id);
      RunHoldsLastFlows(capacity, before);
      RunHoldsLastFlows(capacity, ops);
      if Live(Run(capacity, ops).flows, id) {
        DataStep(Run(capacity, before), capacity, ops[|ops| - 1], id);
      }
    }
  }

  lemma NobodyIsLive(id: FlowID)
    ensures !Live([], id)
  {
  }

  /** What one operation does to the data of a flow that is live afterwards. */
  lemma DataStep(q: Queue, capacity: nat, op: Op, id: FlowID)
    requires capacity >= 1 && q.Valid(capacity) && Allowed(q, op) && Live(Apply(q, capacity, op).flows, id)
    ensures DataOf(Apply(q, capacity, op), id) ==
            match op
            case Add(m) => if m.id == id then None else DataOf(q, id)
            case UpdateData(x, change) =>
              if x == id then Some(change(if id in q.data then q.data[id] else EMPTY_DATA)) else DataOf(q, id)
            case SetData(x, d) => if x == id then Some(d) else DataOf(q, id)
            case Update(_, _) => DataOf(q, id)
    ensures (op.Add? && op.meta.id == id) || Live(q.flows, id)
  {
    hide Distinct, Live, UpdateAll, LastN;
    match op {
      case Add(m) => LiveAfterAdd(q.flows, m, capacity, id);
      case Update(x, fn) => UpdateKeepsLive(q.flows, x, fn);
      case _ =>
    }
  }

  // ----- listing -----

  function Reverse<T>(s: seq<T>): (r: seq<T>)
    ensures |r| == |s|
    ensures forall i :: 0 <= i < |s| ==> r[i] == s[|s| - 1 - i]
  {
    if s == [] then [] else Reverse(s[1..]) + [s[0]]
  }

  function Matching(s: seq<FlowMeta>, filter: FlowMeta -> bool): seq<FlowMeta> {
    if s == [] then []
    else (if filter(s[0]) then [s[0]] else []) + Matching(s[1..], filter)
  }

  lemma {:induction false} MatchingAppend(s: seq<FlowMeta>, m: FlowMeta, filter: FlowMeta -> bool)
    ensures Matching(s + [m], filter) == Matching(s, filter) + (if filter(m) then [m] else [])
  {
    if s == [] {
      assert s + [m] == [m];
    } else {
      MatchingAppend(s[1..], m, filter);
      assert (s + [m])[1..] == s[1..] + [m];
    }
  }

  /** No filter keeps every flow. */
  function Keep(filter: Option<FlowMeta -> bool>): FlowMeta -> bool {
    match filter
    case Some(f) => f
    case None => (m: FlowMeta) => true
  }

  /** What a newest-first scan has matched when flow `i` was the last one seen. */
  function MatchingNewest(q: seq<FlowMeta>, i: nat, filter: FlowMeta -> bool): seq<FlowMeta>
    requires i <= |q|
  {
    Matching(Reverse(q)[..|q| - i], filter)
  }

  lemma NewestStep(q: seq<FlowMeta>, i: nat, filter: FlowMeta -> bool)
    requires i < |q|
    ensures MatchingNewest(q, i, filter) ==
            MatchingNewest(q, i + 1, filter) + (if filter(q[i]) then [q[i]] else [])
  {
    MatchingAppend(Reverse(q)[..|q| - i - 1], q[i], filter);
    assert Reverse(q)[..|q| - i] == Reverse(q)[..|q| - i - 1] + [q[i]];
  }

  lemma NewestNone(q: seq<FlowMeta>, filter: FlowMeta -> bool)
    ensures MatchingNewest(q, |q|, filter) == []
  {
  }

  lemma NewestAll(q: seq<FlowMeta>, filter: FlowMeta -> bool)
    ensures MatchingNewest(q, 0, filter) == Matching(Reverse(q), filter)
  {
    assert Reverse(q)[..|q|] == Reverse(q);
  }

  /** The slice a caller asks for; a limit of zero or less means no limit. */
  function Page(all: seq<FlowMeta>, offset: nat, limit: int): seq<FlowMeta> {
    if offset >= |all| then []
    else if 0 < limit < |all| - offset then all[offset..offset + limit]
    else all[offset..]
  }

  function Pages(all: seq<FlowMeta>, offset: nat, limit: nat): seq<FlowMeta>
    requires limit >= 1
    decreases |all| - offset
  {
    if offset >= |all| then [] else Page(all, offset, limit) + Pages(all, offset + limit, limit)
  }

  /** Reading page after page loses nothing and repeats nothing. */
  lemma {:induction false} PagesCoverRest(all: seq<FlowMeta>, offset: nat, limit: nat)
    requires limit >= 1
    ensures Pages(all, offset, limit) == Page(all, offset, 0)
    decreases |all| - offset
  {
    if offset < |all| {
      if limit < |all| - offset {
        PagesCoverRest(all, offset + limit, limit);
        assert all[offset..offset + limit] + all[offset + limit..] == all[offset..];
      } else {
        assert all[offset..] + [] == all[offset..];
      }
    }
  }

  // ----- slots -----

  /** The slot of the `i`-th oldest flow. */
  function Slot(head: nat, i: nat, capacity: nat): (slot: nat)
    requires head < capacity && i <= capacity
    ensures slot == if head + i < capacity then head + i else head + i - capacity
  {
    WrapOnce(head + i, capacity);
    (head + i) % capacity
  }

  lemma WrapOnce(x: nat, n: nat)
    requires x < 2 * n
    ensures x % n == if x < n then x else x - n
  {
    var q := x / n;
    assert x == q * n + x % n;
    assert q >= 2 ==> q * n >= 2 * n;
    assert q >= 1 ==> q * n >= n;
  }

  /** The live flows, oldest first. */
  function FlowsIn(metas: seq<FlowMeta>, head: nat, count: nat): (q: seq<FlowMeta>)
    requires head < |metas| && count <= |metas|
    ensures |q| == count
  {
    seq(count, i requires 0 <= i < count => metas[Slot(head, i, |metas|)])
  }

  /** `index` maps exactly the live ids, each to its own slot. */
  ghost predicate Indexed(index: map<FlowID, nat>, q: seq<FlowMeta>, head: nat, capacity: nat)
    requires head < capacity && |q| <= capacity
  {
    && (forall id :: id in index ==> Live(q, id))
    && (forall i :: 0 <= i < |q| ==> q[i].id in index && index[q[i].id] == Slot(head, i, capacity))
  }

  /** Writing one slot behind the newest flow appends to the queue. */
  lemma WriteSpare(metas: seq<FlowMeta>, head: nat, count: nat, m: FlowMeta)
    requires head < |metas| && count < |metas|
    ensures FlowsIn(metas[Slot(head, count, |metas|) := m], head, count + 1) == FlowsIn(metas, head, count) + [m]
  {
  }

  /** In a full ring that slot is the oldest flow's own, and the head moves on. */
  lemma WriteOldest(metas: seq<FlowMeta>, head: nat, m: FlowMeta)
    requires head < |metas|
    ensures FlowsIn(metas[head := m], Slot(head, 1, |metas|), |metas|) == FlowsIn(metas, head, |metas|)[1..] + [m]
  {
    var n, next := |metas|, Slot(head, 1, |metas|);
    var after, was := FlowsIn(metas[head := m], next, n), FlowsIn(metas, head, n);
    forall i | 0 <= i < n ensures after[i] == (was[1..] + [m])[i] {
      if i + 1 < n {
        assert Slot(next, i, n) == Slot(head, i + 1, n) != head;
      } else {
        assert Slot(next, i, n) == head;
      }
    }
  }

  lemma IndexAfterSpare(index: map<FlowID, nat>, q: seq<FlowMeta>, head: nat, capacity: nat, m: FlowMeta)
    requires head < capacity && |q| < capacity && Indexed(index, q, head, capacity) && !Live(q, m.id)
    ensures Indexed(index[m.id := Slot(head, |q|, capacity)], q + [m], head, capacity)
  {
    var r := q + [m];
    forall id | id in index[m.id := Slot(head, |q|, capacity)] ensures Live(r, id) {
      if id == m.id {
        assert r[|q|].id == id;
      } else {
        var i :| 0 <= i < |q| && q[i].id == id;
        assert r[i].id == id;
      }
    }
  }

  lemma IndexAfterEvict(index: map<FlowID, nat>, q: seq<FlowMeta>, head: nat, m: FlowMeta)
    requires head < |q| && Indexed(index, q, head, |q|) && !Live(q, m.id) && Distinct(q)
    ensures Indexed((index - {q[0].id})[m.id := head], q[1..] + [m], Slot(head, 1, |q|), |q|)
  {
    var r, after := q[1..] + [m], (index - {q[0].id})[m.id := head];
    forall id | id in after ensures Live(r, id) {
      if id == m.id {
        assert r[|q| - 1].id == id;
      } else {
        var i :| 0 <= i < |q| && q[i].id == id;
        assert r[i - 1].id == id;
      }
    }
    forall i | 0 <= i < |r|
      ensures r[i].id in after && after[r[i].id] == Slot(Slot(head, 1, |q|), i, |q|)
    {
      SlotMovesOn(head, i, |q|);
      if i < |q| - 1 {
        assert r[i] == q[i + 1];
        assert q[0].id != q[i + 1].id && q[i + 1].id != m.id;
      }
    }
  }

  /** Moving the head on by one renumbers every slot. */
  lemma SlotMovesOn(head: nat, i: nat, capacity: nat)
    requires head < capacity && i < capacity
    ensures Slot(Slot(head, 1, capacity), i, capacity) ==
            if i + 1 < capacity then Slot(head, i + 1, capacity) else head
  {
  }

  lemma SlotsDiffer(head: nat, i: nat, k: nat, capacity: nat)
    requires head < capacity && i < capacity && k < capacity && i != k
    ensures Slot(head, i, capacity) != Slot(head, k, capacity)
  {
  }

  /** Changing the flow in an indexed slot changes that flow of the queue only. */
  lemma WriteLive(metas: seq<FlowMeta>, head: nat, count: nat, index: map<FlowID, nat>, id: FlowID,
                  fn: FlowMeta -> FlowMeta)
    requires head < |metas| && count <= |metas|
    requires var q := FlowsIn(metas, head, count); Indexed(index, q, head, |metas|) && Distinct(q)
    requires id in index
    ensures index[id] < |metas|
    ensures FlowsIn(metas[index[id] := fn(metas[index[id]])], head, count) ==
            UpdateAll(FlowsIn(metas, head, count), id, fn)
  {
    hide UpdateAll, FlowsIn, Slot;
    var q := FlowsIn(metas, head, count);
    var k :| 0 <= k < |q| && q[k].id == id;
    assert index[id] == Slot(head, k, |metas|);
    FlowAt(metas, head, count, k);
    WriteSlot(metas, head, count, k, fn(q[k]));
    UpdateOne(q, k, fn);
  }

  lemma FlowAt(metas: seq<FlowMeta>, head: nat, count: nat, k: nat)
    requires head < |metas| && k < count <= |metas|
    ensures FlowsIn(metas, head, count)[k] == metas[Slot(head, k, |metas|)]
  {
  }

  lemma WriteSlot(metas: seq<FlowMeta>, head: nat, count: nat, k: nat, m: FlowMeta)
    requires head < |metas| && k < count <= |metas|
    ensures FlowsIn(metas[Slot(head, k, |metas|) := m], head, count) == FlowsIn(metas, head, count)[k := m]
  {
    hide Slot;
    var r := FlowsIn(metas[Slot(head, k, |metas|) := m], head, count);
    forall i | 0 <= i < count ensures r[i] == FlowsIn(metas, head, count)[k := m][i] {
      if i != k {
        SlotsDiffer(head, i, k, |metas|);
      }
    }
  }

  lemma UpdateOne(q: seq<FlowMeta>, k: nat, fn: FlowMeta -> FlowMeta)
    requires k < |q| && Distinct(q)
    ensures UpdateAll(q, q[k].id, fn) == q[k := fn(q[k])]
  {
  }

  lemma IndexedIsLive(index: map<FlowID, nat>, q: seq<FlowMeta>, head: nat, capacity: nat, id: FlowID)
    requires head < capacity && |q| <= capacity && Indexed(index, q, head, capacity)
    ensures id in index <==> Live(q, id)
  {
  }

  lemma UpdateKeepsIndex(index: map<FlowID, nat>, q: seq<FlowMeta>, head: nat, capacity: nat, id: FlowID,
                         fn: FlowMeta -> FlowMeta)
    requires head < capacity && |q| <= capacity && Indexed(index, q, head, capacity) && KeepsId(fn)
    ensures Indexed(index, UpdateAll(q, id, fn), head, capacity)
  {
    hide Slot;
    var r := UpdateAll(q, id, fn);
    assert forall i :: 0 <= i < |q| ==> r[i].id == q[i].id;
    forall x | x in index ensures Live(r, x) {
      var i :| 0 <= i < |q| && q[i].id == x;
      assert r[i].id == x;
    }
  }

  /** The outcome of adding to a ring with a free slot. */
  lemma AddToSpare(b: Queue, metas: seq<FlowMeta>, head: nat, index: map<FlowID, nat>, m: FlowMeta)
    requires |b.flows| < |metas| && head < |metas| && b.Valid(|metas|) && Allowed(b, Add(m))
    requires b.flows == FlowsIn(metas, head, |b.flows|) && Indexed(index, b.flows, head, |metas|)
    ensures var slot := Slot(head, |b.flows|, |metas|);
            var r := Apply(b, |metas|, Add(m));
            && r == Queue(FlowsIn(metas[slot := m], head, |b.flows| + 1), b.data)
            && r.Valid(|metas|)
            && Indexed(index[m.id := slot], r.flows, head, |metas|)
  {
    ApplyKeepsValid(b, |metas|, Add(m));
    IndexAfterSpare(index, b.flows, head, |metas|, m);
    WriteSpare(metas, head, |b.flows|, m);
  }

  /** The outcome of adding to a full ring: the oldest flow `b.flows[0]` makes room. */
  lemma AddToFull(b: Queue, metas: seq<FlowMeta>, head: nat, index: map<FlowID, nat>, m: FlowMeta)
    requires |b.flows| == |metas| && head < |metas| && b.Valid(|metas|) && Allowed(b, Add(m))
    requires b.flows == FlowsIn(metas, head, |metas|) && Indexed(index, b.flows, head, |metas|)
    ensures b.flows[0] == metas[head]
    ensures Apply(b, |metas|, Add(m)) == Queue(b.flows[1..] + [m], b.data - {b.flows[0].id})
    ensures Queue(b.flows[1..] + [m], b.data - {b.flows[0].id}).Valid(|metas|)
    ensures FlowsIn(metas[head := m], Slot(head, 1, |metas|), |metas|) == b.flows[1..] + [m]
    ensures Indexed((index - {b.flows[0].id})[m.id := head], b.flows[1..] + [m], Slot(head, 1, |metas|), |metas|)
  {
    hide Indexed, FlowsIn, Distinct, Live, LastN, Apply, Slot;
    QueueAfterEvict(b, m);
    WriteOldest(metas, head, m);
    OldestFlow(metas, head);
    IndexAfterEvict(index, b.flows, head, m);
  }

  lemma QueueAfterEvict(b: Queue, m: FlowMeta)
    requires b.flows != [] && b.Valid(|b.flows|) && Allowed(b, Add(m))
    ensures Apply(b, |b.flows|, Add(m)) == Queue(b.flows[1..] + [m], b.data - {b.flows[0].id})
    ensures Queue(b.flows[1..] + [m], b.data - {b.flows[0].id}).Valid(|b.flows|)
  {
    hide LastN, Live, Distinct;
    LastOfFull(b.flows, m);
    ApplyKeepsValid(b, |b.flows|, Add(m));
  }

  lemma OldestFlow(metas: seq<FlowMeta>, head: nat)
    requires head < |metas|
    ensures FlowsIn(metas, head, |metas|)[0] == metas[head]
  {
  }

  lemma LastOfFull(q: seq<FlowMeta>, m: FlowMeta)
    requires q != []
    ensures LastN(q + [m], |q|) == q[1..] + [m]
  {
  }

  lemma UpdateMissing(q: seq<FlowMeta>, id: FlowID, fn: FlowMeta -> FlowMeta)
    requires !Live(q, id)
    ensures UpdateAll(q, id, fn) == q
  {
  }

  // ----- the buffer -----

  class Buffer {
    const capacity: nat
    const metas: array<FlowMeta>
    var data: map<FlowID, FlowData>
    var index: map<FlowID, nat>
    var head: nat
    var count: nat

    ghost predicate Shape()
      reads this
    {
      metas.Length == capacity && head < capacity && count <= capacity
    }

    /** What this buffer stands for. */
    ghost function Abstract(): Queue
      requires Shape()
      reads this, metas
    {
      Queue(FlowsIn(metas[..], head, count), data)
    }

    ghost predicate Valid()
      reads this, metas
    {
      && Shape()
      && Abstract().Valid(capacity)
      && Indexed(index, Abstract().flows, head, capacity)
    }

    constructor (capacity: nat)
      requires capacity >= 1
      ensures Valid() && fresh(metas) && this.capacity == capacity
      ensures Abstract() == Queue([], map[])
    {
      this.capacity := capacity;
      metas := new FlowMeta[capacity](i => FlowMeta("", ""));
      data, index := map[], map[];
      head, count := 0, 0;
    }

    /** Add a flow, dropping the oldest one and its data when the ring is full. */
    method Add(meta: FlowMeta)
      requires Valid() && Allowed(Abstract(), Op.Add(meta))
      modifies this, metas
      ensures Valid()
      ensures Abstract() == Apply(old(Abstract()), capacity, Op.Add(meta))
    {
      hide Apply, FlowsIn, Indexed, Allowed, Distinct, Live;
      ghost var was, ms := Abstract(), metas[..];
      var slot := Slot(head, count, capacity);
      if count == capacity {
        AddToFull(was, ms, head, index, meta);
        var evicted := metas[head];
        data := data - {evicted.id};
        index := index - {evicted.id};
        head := Slot(head, 1, capacity);
      } else {
        AddToSpare(was, ms, head, index, meta);
        count := count + 1;
      }
      metas[slot] := meta;
      index := index[meta.id := slot];
      assert metas[..] == ms[slot := meta];
    }

    method Update(id: FlowID, fn: FlowMeta -> FlowMeta)
      requires Valid() && Allowed(Abstract(), Op.Update(id, fn))
      modifies metas
      ensures Valid()
      ensures Abstract() == Apply(old(Abstract()), capacity, Op.Update(id, fn))
    {
      ghost var was, ms := Abstract(), metas[..];
      ApplyKeepsValid(was, capacity, Op.Update(id, fn));
      if id !in index {
        UpdateMissing(was.flows, id, fn);
        return;
      }
      hide FlowsIn, Indexed, Distinct, Live, UpdateAll;
      WriteLive(ms, head, count, index, id, fn);
      UpdateKeepsIndex(index, was.flows, head, capacity, id, fn);
      var slot := index[id];
      metas[slot] := fn(metas[slot]);
      assert metas[..] == ms[slot := fn(ms[slot])];
    }

    method UpdateData(id: FlowID, change: FlowData -> FlowData)
      requires Valid()
      modifies this`data
      ensures Valid()
      ensures Abstract() == Apply(old(Abstract()), capacity, Op.UpdateData(id, change))
    {
      hide FlowsIn, Indexed, Distinct, Live;
      IndexedIsLive(index, Abstract().flows, head, capacity, id);
      if id !in index {
        return;
      }
      var d := if id in data then data[id] else EMPTY_DATA;
      data := data[id := change(d)];
    }

    method SetData(id: FlowID, d: FlowData)
      requires Valid()
      modifies this`data
      ensures Valid()
      ensures Abstract() == Apply(old(Abstract()), capacity, Op.SetData(id, d))
    {
      hide FlowsIn, Indexed, Distinct, Live;
      IndexedIsLive(index, Abstract().flows, head, capacity, id);
      if id !in index {
        return;
      }
      data := data[id := d];
    }

    method Get(id: FlowID) returns (r: Option<(FlowMeta, Option<FlowData>)>)
      requires Valid()
      ensures r.None? <==> !Live(Abstract().flows, id)
      ensures r.Some? ==> r.value.0.id == id && r.value.0 in Abstract().flows
      ensures r.Some? ==> r.value.1 == if id in data then Some(data[id]) else None
    {
      if id !in index {
        return None;
      }
      var meta := metas[index[id]];
      return Some((meta, if id in data then Some(data[id]) else None));
    }

    /** Newest first; `filter` is `None` when the caller passes no filter. */
    method List(filter: Option<FlowMeta -> bool>, offset: nat, limit: int)
      returns (page: seq<FlowMeta>, total: nat)
      requires Valid()
      ensures var all := Matching(Reverse(Abstract().flows), Keep(filter));
              page == Page(all, offset, limit) && total == |all|
    {
      hide Matching, Reverse;
      ghost var q := Abstract().flows;
      var matched := [];
      NewestNone(q, Keep(filter));
      for i := count downto 0
        invariant matched == MatchingNewest(q, i, Keep(filter))
      {
        hide MatchingNewest;
        var m := metas[Slot(head, i, capacity)];
        NewestStep(q, i, Keep(filter));
        if filter.Some? && !filter.value(m) {
          continue;
        }
        matched := matched + [m];
      }
      NewestAll(q, Keep(filter));
      total := |matched|;
      if offset >= total {
        return [], total;
      }
      matched := matched[offset..];
      if limit > 0 && limit < |matched| {
        matched := matched[..limit];
      }
      return matched, total;
    }

    method Len() returns (n: nat)
      requires Valid()
      ensures n == |Abstract().flows|
    {
      return count;
    }
  }
}
