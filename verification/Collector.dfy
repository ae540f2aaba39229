/** The background collector: flushing queued events to rows and rolling counters up into daily rows. */
module Collector {
  import opened Text
  import opened Dates
  import opened UsageKeys
  import opened UsageEvents
  import opened UsageStore
  import FlushQueue

  const FLUSH_BATCH_SIZE := 100
  const MAX_INT32: int := 0x7FFF_FFFF
  const MIN_INT32: int := -0x8000_0000

  /** The n oldest entries of a newest-first list, oldest first. */
  function Oldest<T>(queue: seq<T>, n: nat): (r: seq<T>)
    requires n <= |queue|
    ensures |r| == n
  {
    seq(n, i requires 0 <= i < n => queue[|queue| - 1 - i])
  }

  /** The queue after a flush of n events, or of n events and one whose insert failed. */
  function AfterFlush<T>(queue: seq<T>, n: nat, failed: bool, requeueFails: bool): seq<T>
    requires if failed then n < |queue| else n <= |queue|
  {
    var rest := queue[..|queue| - n];
    if !failed then rest
    else
      var event := rest[|rest| - 1];
      if requeueFails then rest[..|rest| - 1] else [event] + rest[..|rest| - 1]
  }

  /** Clamp to the int32 columns of the daily table. */
  function ToInt32(n: int): (r: int)
    ensures MIN_INT32 <= r <= MAX_INT32
    ensures MIN_INT32 <= n <= MAX_INT32 ==> r == n
    ensures n <= 0 <==> r <= 0
  {
    if n > MAX_INT32 then MAX_INT32 else if n < MIN_INT32 then MIN_INT32 else n
  }

  /** What one rollup adds to a daily row: the whole cumulative counter. */
  function Snapshot(c: Counter): Counter {
    c.(tools := ToInt32(c.tools), reports := ToInt32(c.reports))
  }

  function RowOf(daily: map<KeyParts, Counter>, row: KeyParts): Counter {
    if row in daily then daily[row] else ZERO
  }

  /** The daily row a counter key is rolled up into, if any. */
  function RowKey(key: string): Option<KeyParts> {
    var parts := ParseUsageKey(key);
    if parts.Some? && ParseDate(parts.value.date).Some? then parts else None
  }

  /** What one rollup meets: the counters, the keys that its scan lists, and those whose HGETALL fails. */
  datatype Scan = Scan(counters: map<string, Counter>, keys: seq<string>, unreadable: set<string>)

  /** Every daily row grows by exactly what the scan adds to it. */
  ghost predicate AddsScan(before: map<KeyParts, Counter>, after: map<KeyParts, Counter>, scan: Scan) {
    forall row ::
      RowOf(after, row) == Plus(RowOf(before, row), Added(scan.counters, scan.keys, scan.unreadable, row))
  }

  class UsageCollector {
    var queue: seq<Event>
    var rows: seq<Event>
    var counters: map<string, Counter>
    var daily: map<KeyParts, Counter>

    /**
     * One flush cycle while no emitter runs. The n oldest events become rows in order, at most a
     * batch of them; a failed pop ends the cycle and changes nothing, a failed insert ends it and puts
     * its event back at the newest end.
     */
    method Flush(cancelled: nat -> bool, popFails: nat -> bool, insertFails: nat -> bool, requeueFails: bool)
        returns (n: nat, failed: bool)
      modifies this`queue, this`rows
      ensures n <= FLUSH_BATCH_SIZE && if failed then n < |old(queue)| else n <= |old(queue)|
      ensures rows == old(rows) + Oldest(old(queue), n)
      ensures queue == AfterFlush(old(queue), n, failed, requeueFails)
      ensures !failed ==> n == FLUSH_BATCH_SIZE || n == |old(queue)| || cancelled(n) || popFails(n)
      ensures failed ==> !cancelled(n) && !popFails(n) && insertFails(n)
      ensures forall i :: 0 <= i < n ==> !cancelled(i) && !popFails(i) && !insertFails(i)
    {
      n, failed := 0, false;
      while n < FLUSH_BATCH_SIZE
        invariant !failed && n <= FLUSH_BATCH_SIZE && n <= |old(queue)|
        invariant queue == old(queue)[..|old(queue)| - n]
        invariant rows == old(rows) + Oldest(old(queue), n)
        invariant forall i :: 0 <= i < n ==> !cancelled(i) && !popFails(i) && !insertFails(i)
      {
        if cancelled(n) {
          return;
        }
        if popFails(n) || queue == [] {
          break;
        }
        var event := queue[|queue| - 1];
        queue := queue[..|queue| - 1];
        if insertFails(n) {
          failed := true;
          if !requeueFails {
            queue := [event] + queue;
          }
          break;
        }
        assert Oldest(old(queue), n + 1) == Oldest(old(queue), n) + [event];
        rows := rows + [event];
        n := n + 1;
      }
    }

    /** One rollup over a scan: every readable counter is added to its daily row. */
    method Rollup(keys: seq<string>, unreadable: set<string>)
      modifies this`daily
      ensures AddsScan(old(daily), daily, Scan(counters, keys, unreadable))
    {
      hide Plus, RowKey, Snapshot, RowOf, Added;
      forall row { NothingAdded(daily, counters, unreadable, row); }
      var n := 0;
      while n < |keys|
        invariant 0 <= n <= |keys|
        invariant forall row :: RowOf(daily, row)
                             == Plus(RowOf(old(daily), row), Added(counters, keys[..n], unreadable, row))
      {
        var key := keys[n];
        var row := RowKey(key);
        ghost var before := daily;
        if row.Some? && key !in unreadable && key in counters {
          daily := daily[row.value := Plus(RowOf(daily, row.value), Snapshot(counters[key]))];
        }
        forall r ensures RowOf(daily, r) == Plus(RowOf(old(daily), r), Added(counters, keys[..n + 1], unreadable, r)) {
          AddedStep(old(daily), before, daily, counters, keys, n, unreadable, r);
        }
        n := n + 1;
      }
      assert keys[..n] == keys;
    }
  }

  /** What a rollup over the keys adds to one row. */
  ghost function Added(counters: map<string, Counter>, keys: seq<string>, unreadable: set<string>, row: KeyParts):
      Counter
  {
    if keys == [] then ZERO
    else
      var last := keys[|keys| - 1];
      Plus(Added(counters, keys[..|keys| - 1], unreadable, row), AddedBy(counters, last, unreadable, row))
  }

  ghost function AddedBy(counters: map<string, Counter>, key: string, unreadable: set<string>, row: KeyParts): Counter {
    if RowKey(key) == Some(row) && key !in unreadable && key in counters then Snapshot(counters[key]) else ZERO
  }

  lemma {:induction false} NothingAdded(daily: map<KeyParts, Counter>, counters: map<string, Counter>,
                                        unreadable: set<string>,
                                        row: KeyParts)
    ensures RowOf(daily, row) == Plus(RowOf(daily, row), Added(counters, [], unreadable, row))
  {
    PlusZero(RowOf(daily, row));
  }

  lemma {:induction false} AddedStep(was: map<KeyParts, Counter>, before: map<KeyParts, Counter>, after: map<KeyParts,
                                     Counter>,
                                     counters: map<string, Counter>, keys: seq<string>, n: nat,
                                     unreadable: set<string>, row: KeyParts)
    requires n < |keys|
    requires RowOf(before, row) == Plus(RowOf(was, row), Added(counters, keys[..n], unreadable, row))
    requires var key := keys[n];
             after == if RowKey(key).Some? && key !in unreadable && key in counters
                      then before[RowKey(key).value := Plus(RowOf(before, RowKey(key).value), Snapshot(counters[key]))]
                      else before
    ensures RowOf(after, row) == Plus(RowOf(was, row), Added(counters, keys[..n + 1], unreadable, row))
  {
    hide Plus, RowKey, Snapshot;
    assert keys[..n + 1][..n] == keys[..n];
    var share := AddedBy(counters, keys[n], unreadable, row);
    PlusZero(RowOf(before, row));
    PlusRegroup(RowOf(was, row), Added(counters, keys[..n], unreadable, row), share);
    assert RowOf(after, row) == Plus(RowOf(before, row), share);
  }

  /** A scan that lists each key once adds to a row exactly the counter of the row's own key. */
  lemma {:induction false} AddedIsOwnCounter(counters: map<string, Counter>, keys: seq<string>, unreadable: set<string>,
                                             row: KeyParts)
    requires NoDuplicates(keys)
    ensures Added(counters, keys, unreadable, row)
         == var key := RedisKey(row.tenant, row.date, row.model);
            if key in keys then AddedBy(counters, key, unreadable, row) else ZERO
  {
    hide Plus, Snapshot, RedisKey, RowKey;
    if keys != [] {
      var init, last := keys[..|keys| - 1], keys[|keys| - 1];
      assert keys == init + [last];
      assert forall i :: 0 <= i < |init| ==> init[i] == keys[i];
      AddedIsOwnCounter(counters, init, unreadable, row);
      RowKeyPrints(last, row);
      PlusZero(Added(counters, init, unreadable, row));
      PlusZero(AddedBy(counters, last, unreadable, row));
    }
  }

  lemma {:induction false} RowKeyPrints(key: string, row: KeyParts)
    ensures RowKey(key) == Some(row) ==> key == RedisKey(row.tenant, row.date, row.model)
  {
    if RowKey(key) == Some(row) {
      ParsedKeyPrints(key);
    }
  }

  // ---------- a flush cycle among the queue's steps ----------

  /** The steps that a collector takes. */
  predicate CollectorStep(step: FlushQueue.Step) {
    step.Pop? || step.Insert? || step.Requeue? || step.Lose?
  }

  /** The events of a list of names. */
  function Named(name: nat -> Event, names: seq<nat>): (r: seq<Event>)
    ensures |r| == |names| && forall i :: 0 <= i < |r| ==> r[i] == name(names[i])
  {
    seq(|names|, i requires 0 <= i < |names| => name(names[i]))
  }

  lemma {:induction false} PopAndInsert(cap: nat, s: FlushQueue.State) returns (steps: seq<FlushQueue.Step>,
                                        s': FlushQueue.State)
    requires s.queue != [] && s.held == []
    ensures FlushQueue.Run(cap, 1, s, steps) == Some(s') && forall i :: 0 <= i < |steps| ==> CollectorStep(steps[i])
    ensures s' == s.(queue := s.queue[..|s.queue| - 1], inserted := s.inserted + [s.queue[|s.queue| - 1]])
  {
    hide FlushQueue.Run, FlushQueue.Next;
    var rest, x := s.queue[..|s.queue| - 1], s.queue[|s.queue| - 1];
    assert s.queue == rest + [x];
    FlushQueue.HandleStep(cap, s, rest, x);
    s' := s.(queue := rest, inserted := s.inserted + [x]);
    steps := [FlushQueue.Pop, FlushQueue.Insert(0)];
    TwoSteps(cap, s, FlushQueue.Pop, s.(queue := rest, held := [x]), FlushQueue.Insert(0), s');
  }

  lemma {:induction false} TwoSteps(cap: nat, s: FlushQueue.State, a: FlushQueue.Step, mid: FlushQueue.State,
                                    b: FlushQueue.Step,
                                    s': FlushQueue.State)
    requires FlushQueue.Next(cap, 1, s, a) == Some(mid) && FlushQueue.Next(cap, 1, mid, b) == Some(s')
    ensures FlushQueue.Run(cap, 1, s, [a, b]) == Some(s')
  {
    hide FlushQueue.Next;
    assert [a, b][1..] == [b] && [b][1..] == [];
    assert FlushQueue.Run(cap, 1, mid, [b]) == Some(s');
  }

  lemma {:induction false} RunConcat(cap: nat, s: FlushQueue.State, a: seq<FlushQueue.Step>, mid: FlushQueue.State,
                                     b: seq<FlushQueue.Step>)
    requires FlushQueue.Run(cap, 1, s, a) == Some(mid)
    ensures FlushQueue.Run(cap, 1, s, a + b) == FlushQueue.Run(cap, 1, mid, b)
    decreases |a|
  {
    hide FlushQueue.Next;
    if a == [] {
      assert a + b == b;
    } else {
      assert (a + b)[0] == a[0] && (a + b)[1..] == a[1..] + b;
      RunConcat(cap, FlushQueue.Next(cap, 1, s, a[0]).value, a[1..], mid, b);
    }
  }

  lemma {:induction false} InsertMany(cap: nat, s: FlushQueue.State, n: nat)
      returns (steps: seq<FlushQueue.Step>, s': FlushQueue.State)
    requires n <= |s.queue| && s.held == []
    ensures FlushQueue.Run(cap, 1, s, steps) == Some(s') && forall i :: 0 <= i < |steps| ==> CollectorStep(steps[i])
    ensures s' == s.(queue := s.queue[..|s.queue| - n], inserted := s.inserted + Oldest(s.queue, n))
  {
    hide FlushQueue.Run, FlushQueue.Next;
    OldestStep(s.queue, n, s.inserted);
    if n == 0 {
      steps, s' := [], s;
      FlushQueue.RunNothing(cap, s);
    } else {
      var before, mid := InsertMany(cap, s, n - 1);
      var one, after := PopAndInsert(cap, mid);
      RunConcat(cap, s, before, mid, one);
      steps, s' := before + one, after;
    }
  }

  lemma {:induction false} OldestStep(queue: seq<nat>, n: nat, rows: seq<nat>)
    requires n <= |queue|
    ensures n == 0 ==> rows + Oldest(queue, n) == rows && queue[..|queue| - n] == queue
    ensures n > 0 ==>
              var before := queue[..|queue| - (n - 1)];
              && rows + Oldest(queue, n - 1) + [before[|before| - 1]] == rows + Oldest(queue, n)
              && before[..|before| - 1] == queue[..|queue| - n]
  {
    if n > 0 {
      assert Oldest(queue, n) == Oldest(queue, n - 1) + [queue[|queue| - n]];
    }
  }

  /**
   * One flush cycle is a run of a collector's steps of the queue: whatever `Flush` may leave behind,
   * pops, inserts and at most one failed insert lead there, so what `FlushQueue` proves of all runs
   * holds with such cycles among the emitters' steps.
   */
  lemma {:induction false} FlushIsARun(cap: nat, s: FlushQueue.State, name: nat -> Event, n: nat, failed: bool,
                                       requeueFails: bool)
      returns (steps: seq<FlushQueue.Step>, s': FlushQueue.State)
    requires s.held == [] && if failed then n < |s.queue| else n <= |s.queue|
    ensures FlushQueue.Run(cap, 1, s, steps) == Some(s') && s'.held == []
    ensures forall i :: 0 <= i < |steps| ==> CollectorStep(steps[i])
    ensures s'.emitted == s.emitted && s'.trimmed == s.trimmed
    ensures Named(name, s'.queue) == AfterFlush(Named(name, s.queue), n, failed, requeueFails)
    ensures Named(name, s'.inserted) == Named(name, s.inserted) + Oldest(Named(name, s.queue), n)
  {
    hide FlushQueue.Run, Named;
    steps, s' := InsertMany(cap, s, n);
    if failed {
      var more, after := FailedInsert(cap, s', requeueFails);
      RunConcat(cap, s, steps, s', more);
      steps, s' := steps + more, after;
    }
    assert s'.queue == AfterFlush(s.queue, n, failed, requeueFails) by {
      if failed {
        AfterFailure(s.queue, n, requeueFails);
      }
    }
    hide AfterFlush, Oldest, Named;
    NamedAfterFlush(name, s.queue, n, failed, requeueFails);
    NamedRows(name, s.inserted, s.queue, n);
  }

  lemma {:induction false} AfterFailure(queue: seq<nat>, n: nat, requeueFails: bool)
    requires n < |queue|
    ensures AfterFlush(queue[..|queue| - n], 0, true, requeueFails) == AfterFlush(queue, n, true, requeueFails)
  {
    var rest := queue[..|queue| - n];
    assert rest[..|rest| - 0] == rest;
  }

  lemma {:induction false} NamedAfterFlush(name: nat -> Event, queue: seq<nat>, n: nat, failed: bool,
                                           requeueFails: bool)
    requires if failed then n < |queue| else n <= |queue|
    ensures Named(name, AfterFlush(queue, n, failed, requeueFails))
         == AfterFlush(Named(name, queue), n, failed, requeueFails)
  {
    var left := AfterFlush(queue, n, failed, requeueFails);
    var right := AfterFlush(Named(name, queue), n, failed, requeueFails);
    assert |left| == |right|;
    assert forall i :: 0 <= i < |left| ==> right[i] == name(left[i]);
  }

  lemma {:induction false} NamedRows(name: nat -> Event, rows: seq<nat>, queue: seq<nat>, n: nat)
    requires n <= |queue|
    ensures Named(name, rows + Oldest(queue, n)) == Named(name, rows) + Oldest(Named(name, queue), n)
  {
  }

  lemma {:induction false} FailedInsert(cap: nat, s: FlushQueue.State, requeueFails: bool)
      returns (steps: seq<FlushQueue.Step>, s': FlushQueue.State)
    requires s.queue != [] && s.held == []
    ensures FlushQueue.Run(cap, 1, s, steps) == Some(s') && forall i :: 0 <= i < |steps| ==> CollectorStep(steps[i])
    ensures s'.queue == AfterFlush(s.queue, 0, true, requeueFails) && s'.inserted == s.inserted
    ensures s'.held == [] && s'.emitted == s.emitted && s'.trimmed == s.trimmed
  {
    var mid := FlushQueue.Next(cap, 1, s, FlushQueue.Pop).value;
    var last := if requeueFails then FlushQueue.Lose(0) else FlushQueue.Requeue(0);
    s' := FlushQueue.Next(cap, 1, mid, last).value;
    steps := [FlushQueue.Pop, last];
    TwoSteps(cap, s, FlushQueue.Pop, mid, last, s');
  }

  // ---------- repeated rollups ----------

  /** The daily rows before, between and after successive rollups. */
  ghost predicate Rollups(days: seq<map<KeyParts, Counter>>, scans: seq<Scan>) {
    |days| == |scans| + 1 && forall i :: 0 <= i < |scans| ==> AddsScan(days[i], days[i + 1], scans[i])
  }

  /** The value at which a rollup found the row's own counter; 0 if the scan missed it or could not read it. */
  function Found(scan: Scan, row: KeyParts): Counter {
    var key := RedisKey(row.tenant, row.date, row.model);
    if key in scan.keys && key !in scan.unreadable && key in scan.counters then scan.counters[key] else ZERO
  }

  /** A row of a colon-free tenant, a day and a model. */
  ghost predicate IsDayRow(row: KeyParts) {
    && ':' !in row.tenant && row.model != ""
    && exists d: Date :: ValidDate(d) && row.date == FormatDate(d)
  }

  /** A key is rolled up into a row exactly if it is the row's printed key and the row is one of a day. */
  lemma {:induction false} RowKeyIff(key: string, row: KeyParts)
    ensures RowKey(key) == Some(row) <==> IsDayRow(row) && key == RedisKey(row.tenant, row.date, row.model)
  {
    hide ParseUsageKey, FormatDate, ParseDate, RedisKey;
    KeyRoundTrip(row.tenant, row.date, row.model);
    if RowKey(key) == Some(row) {
      ParsedKeyPrints(key);
      ParsedDatePrints(row.date);
      assert row.date == FormatDate(ParseDate(row.date).value);
    }
    if IsDayRow(row) && key == RedisKey(row.tenant, row.date, row.model) {
      var d: Date :| ValidDate(d) && row.date == FormatDate(d);
      DateRoundTrip(d);
    }
  }

  /** The row is one of a day, so its key is rolled up into it, and no scan repeats a key. */
  ghost predicate Reaches(scans: seq<Scan>, row: KeyParts) {
    && IsDayRow(row)
    && forall i :: 0 <= i < |scans| ==> NoDuplicates(scans[i].keys)
  }

  /** The sum of what successive rollups found. */
  ghost function RolledUp(scans: seq<Scan>, row: KeyParts): Counter {
    if scans == [] then ZERO
    else Plus(RolledUp(scans[..|scans| - 1], row), Snapshot(Found(scans[|scans| - 1], row)))
  }

  lemma {:induction false} RollupsAddUp(days: seq<map<KeyParts, Counter>>, scans: seq<Scan>, row: KeyParts)
    requires Rollups(days, scans) && Reaches(scans, row) && RowOf(days[0], row) == ZERO
    ensures RowOf(days[|scans|], row) == RolledUp(scans, row)
  {
    hide Plus, RowKey, RedisKey, RowOf, Added, Snapshot, IsDayRow;
    if scans != [] {
      var n := |scans| - 1;
      RollupsAddUp(days[..n + 1], scans[..n], row);
      var scan := scans[n];
      assert AddsScan(days[n], days[n + 1], scan);
      AddedIsOwnCounter(scan.counters, scan.keys, scan.unreadable, row);
      RowKeyIff(RedisKey(row.tenant, row.date, row.model), row);
      SnapshotOfZero();
    }
  }

  lemma {:induction false} SnapshotOfZero()
    ensures Snapshot(ZERO) == ZERO
  {
  }

  predicate NonNegativeCounter(c: Counter) {
    c.input >= 0 && c.output >= 0 && c.tools >= 0 && c.embedding >= 0 && c.cost >= 0.0 && c.reports >= 0
  }

  /** Counters that only non-negative events were folded into. */
  ghost predicate NoneNegative(scans: seq<Scan>, row: KeyParts) {
    forall i :: 0 <= i < |scans| ==> NonNegativeCounter(Found(scans[i], row))
  }

  datatype Field = Input | Output | Tools | Embedding | Cost | Reports

  function Value(c: Counter, f: Field): real {
    match f
    case Input => c.input as real
    case Output => c.output as real
    case Tools => c.tools as real
    case Embedding => c.embedding as real
    case Cost => c.cost
    case Reports => c.reports as real
  }

  /** The rollups found the row's counter with this field at 0. */
  ghost predicate FoundZero(scans: seq<Scan>, row: KeyParts, f: Field) {
    forall i :: 0 <= i < |scans| ==> Value(Found(scans[i], row), f) == 0.0
  }

  lemma {:induction false} SnapshotValues(c: Counter, f: Field)
    requires NonNegativeCounter(c)
    ensures Value(Snapshot(c), f) >= 0.0 && (Value(Snapshot(c), f) == 0.0 <==> Value(c, f) == 0.0)
  {
  }

  lemma {:induction false} ValuePlus(a: Counter, b: Counter, f: Field)
    ensures Value(Plus(a, b), f) == Value(a, f) + Value(b, f) && Value(ZERO, f) == 0.0
  {
  }

  lemma {:induction false} RolledUpIsZeroIff(scans: seq<Scan>, row: KeyParts, f: Field)
    requires NoneNegative(scans, row)
    ensures Value(RolledUp(scans, row), f) >= 0.0
    ensures Value(RolledUp(scans, row), f) == 0.0 <==> FoundZero(scans, row, f)
  {
    hide Found, Value, Plus, Snapshot, NonNegativeCounter;
    ValuePlus(ZERO, ZERO, f);
    if scans != [] {
      var init, last := scans[..|scans| - 1], scans[|scans| - 1];
      assert forall i :: 0 <= i < |init| ==> init[i] == scans[i];
      RolledUpIsZeroIff(init, row, f);
      SnapshotValues(Found(last, row), f);
      ValuePlus(RolledUp(init, row), Snapshot(Found(last, row)), f);
    }
  }

  /** The field goes into its column unclamped. */
  predicate Fits(c: Counter, f: Field) {
    f == Tools || f == Reports ==> Value(c, f) <= MAX_INT32 as real
  }

  /** A field that fits its column is taken as it is, and one that does not as the column's largest value. */
  lemma {:induction false} SnapshotTakes(c: Counter, f: Field)
    requires NonNegativeCounter(c)
    ensures Value(Snapshot(c), f) == if Fits(c, f) then Value(c, f) else MAX_INT32 as real
  {
  }

  /**
   * A rollup adds the whole counter again each time it runs, so after any rollups a field of the daily
   * row agrees with the counter that the last one found, if it fits its column, exactly when every
   * earlier one found that field at 0. A field that does not fit agrees with the column's largest value.
   */
  lemma {:induction false} RollupIsFaithfulIff(days: seq<map<KeyParts, Counter>>, scans: seq<Scan>, row: KeyParts,
                                               f: Field)
    requires Rollups(days, scans) && scans != [] && RowOf(days[0], row) == ZERO
    requires Reaches(scans, row) && NoneNegative(scans, row)
    ensures var now := Found(scans[|scans| - 1], row);
            (Value(RowOf(days[|scans|], row), f) == if Fits(now, f) then Value(now, f) else MAX_INT32 as real)
              <==> FoundZero(scans[..|scans| - 1], row, f)
  {
    hide Found, RowOf, AddsScan, Reaches, Value, Plus, Snapshot, NonNegativeCounter, FoundZero, Fits;
    SnapshotTakes(Found(scans[|scans| - 1], row), f);
    RollupsAddUp(days, scans, row);
    var init, last := scans[..|scans| - 1], scans[|scans| - 1];
    assert forall i :: 0 <= i < |init| ==> init[i] == scans[i];
    RolledUpIsZeroIff(init, row, f);
    ValuePlus(RolledUp(init, row), Snapshot(Found(last, row)), f);
  }

  /** Two rollups of an unchanged counter of one call leave twice its tokens in the row. */
  lemma {:induction false} SecondRollupDoubles(row: KeyParts)
    requires IsDayRow(row)
    ensures var counter := Counter(1, 0, 0, 0, 0.0, 1);
            var key := RedisKey(row.tenant, row.date, row.model);
            var scan := Scan(map[key := counter], [key], {});
            && RolledUp([scan, scan], row).input == 2
            && forall days :: Rollups(days, [scan, scan]) && RowOf(days[0], row) == ZERO ==>
                 RowOf(days[2], row).input == 2
  {
    hide RedisKey, RowKey;
    var key := RedisKey(row.tenant, row.date, row.model);
    var scan := Scan(map[key := Counter(1, 0, 0, 0, 0.0, 1)], [key], {});
    var scans := [scan, scan];
    assert scans[..1] == [scan] && [scan][..0] == [];
    assert Found(scan, row).input == 1;
    assert RolledUp([scan], row).input == 1;
    forall days | Rollups(days, scans) && RowOf(days[0], row) == ZERO ensures RowOf(days[2], row).input == 2 {
      RollupsAddUp(days, scans, row);
    }
  }
}
