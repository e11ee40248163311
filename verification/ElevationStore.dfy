/** The in-memory store of pending OIDC elevations: single-use, time-limited entries, with expired
    ones swept out on every insert. Its operations run under a lock, so a history is a sequence. */
module ElevationStore {
  import opened Options

  /** Clock readings are nanoseconds since 1970. */
  const SECOND := 1_000_000_000
  const STATE_TTL := 5 * 60 * SECOND

  datatype Entry = Entry(targetMode: string, userID: string, nonce: string, createdAt: int)

  predicate Expired(now: int, e: Entry) {
    now - e.createdAt > STATE_TTL
  }

  function Swept(m: map<string, Entry>, now: int): map<string, Entry> {
    map k | k in m && !Expired(now, m[k]) :: m[k]
  }

  function Taken(m: map<string, Entry>, now: int, state: string): Option<Entry> {
    if state in m && !Expired(now, m[state]) then Some(m[state]) else None
  }

  class StateStore {
    var entries: map<string, Entry>

    constructor ()
      ensures entries == map[]
    {
      entries := map[];
    }

    method Put(now: int, state: string, entry: Entry)
      modifies this
      ensures entries == Swept(old(entries), now)[state := entry]
      ensures forall k :: k in entries && k != state ==> now - entries[k].createdAt <= 300_000_000_000
    {
      var unvisited := entries.Keys;
      while unvisited != {}
        invariant unvisited <= entries.Keys
        invariant entries == map k | k in old(entries) && (k in unvisited || !Expired(now, old(entries)[k]))
                                :: old(entries)[k]
        decreases unvisited
      {
        var k :| k in unvisited;
        unvisited := unvisited - {k};
        if Expired(now, entries[k]) {
          entries := entries - {k};
        }
      }
      entries := entries[state := entry];
    }

    method Take(now: int, state: string) returns (r: Option<Entry>)
      modifies this
      ensures r == Taken(old(entries), now, state)
      ensures entries == old(entries) - {state}
    {
      if state !in entries {
        assert entries == entries - {state};
        return None;
      }
      var entry := entries[state];
      entries := entries - {state};
      if Expired(now, entry) { return None; }
      return Some(entry);
    }
  }

  // ---- histories -----------------------------------------------------------------

  datatype Op = Put(now: int, state: string, entry: Entry) | Take(now: int, state: string)

  /** The store after one operation; `sweep` off gives the store that never drops expired entries. */
  function After(m: map<string, Entry>, op: Op, sweep: bool): map<string, Entry> {
    match op
    case Put(now, state, entry) => (if sweep then Swept(m, now) else m)[state := entry]
    case Take(_, state) => m - {state}
  }

  function StoreAfter(ops: seq<Op>, n: nat, sweep: bool): map<string, Entry>
    requires n <= |ops|
  {
    if n == 0 then map[] else After(StoreAfter(ops, n - 1, sweep), ops[n - 1], sweep)
  }

  /** What the j-th operation, a take, answers. */
  function Answer(ops: seq<Op>, j: nat, sweep: bool): Option<Entry>
    requires j < |ops| && ops[j].Take?
  {
    Taken(StoreAfter(ops, j, sweep), ops[j].now, ops[j].state)
  }

  ghost predicate ClockForward(ops: seq<Op>) {
    forall i, j :: 0 <= i < j < |ops| ==> ops[i].now <= ops[j].now
  }

  /** `swept` holds what `kept` holds, less entries that have expired. */
  ghost predicate DropsOnlyDead(swept: map<string, Entry>, kept: map<string, Entry>, now: int) {
    && (forall k :: k in swept ==> k in kept && kept[k] == swept[k])
    && (forall k :: k in kept && k !in swept ==> Expired(now, kept[k]))
  }

  lemma AfterDropsOnlyDead(swept: map<string, Entry>, kept: map<string, Entry>, op: Op, now: int)
    requires DropsOnlyDead(swept, kept, op.now) && op.now <= now
    ensures DropsOnlyDead(After(swept, op, true), After(kept, op, false), now)
  {
  }

  lemma {:induction false} SweepDropsOnlyDead(ops: seq<Op>, n: nat, now: int)
    requires n <= |ops| && ClockForward(ops) && (forall i :: 0 <= i < n ==> ops[i].now <= now)
    ensures DropsOnlyDead(StoreAfter(ops, n, true), StoreAfter(ops, n, false), now)
  {
    if n > 0 {
      SweepDropsOnlyDead(ops, n - 1, ops[n - 1].now);
      AfterDropsOnlyDead(StoreAfter(ops, n - 1, true), StoreAfter(ops, n - 1, false), ops[n - 1], now);
    }
  }

  /** Sweeping on insert cannot be observed: under a clock that does not run backwards every take
      answers as it would with no sweeping at all. */
  lemma SweepUnobservable(ops: seq<Op>, j: nat)
    requires ClockForward(ops) && j < |ops| && ops[j].Take?
    ensures Answer(ops, j, true) == Answer(ops, j, false)
  {
    SweepDropsOnlyDead(ops, j, ops[j].now);
  }

  /** The clock assumption is needed: here the sweep drops an entry that is live again later. */
  lemma SweepObservableIfClockRetreats(e: Entry)
    requires e.createdAt == 0
    ensures var ops := [Put(0, "s", e), Put(STATE_TTL + 1, "t", e), Take(0, "s")];
      Answer(ops, 2, true) == None && Answer(ops, 2, false) == Some(e)
  {
    var ops := [Put(0, "s", e), Put(STATE_TTL + 1, "t", e), Take(0, "s")];
    assert StoreAfter(ops, 1, true) == map["s" := e];
    assert StoreAfter(ops, 2, true) == map["t" := e];
    assert StoreAfter(ops, 1, false) == map["s" := e];
    assert StoreAfter(ops, 2, false) == map["s" := e, "t" := e];
  }

  /** The entry last put under `state` among the first n operations, unless a take came after it. */
  function Outstanding(ops: seq<Op>, n: nat, state: string): Option<Entry>
    requires n <= |ops|
  {
    if n == 0 then None
    else if ops[n - 1].state != state then Outstanding(ops, n - 1, state)
    else if ops[n - 1].Put? then Some(ops[n - 1].entry) else None
  }

  lemma {:induction false} KeptIsOutstanding(ops: seq<Op>, n: nat, state: string)
    requires n <= |ops|
    ensures var kept := StoreAfter(ops, n, false);
      Outstanding(ops, n, state) == if state in kept then Some(kept[state]) else None
  {
    if n > 0 { KeptIsOutstanding(ops, n - 1, state); }
  }

  /** Exactly what a take answers, over any history: the latest put of that state, if no take of it
      came in between and the entry is at most five minutes old; nothing otherwise. */
  lemma TakeAnswersExactly(ops: seq<Op>, j: nat)
    requires ClockForward(ops) && j < |ops| && ops[j].Take?
    ensures var e := Outstanding(ops, j, ops[j].state);
      Answer(ops, j, true) == if e.Some? && ops[j].now - e.value.createdAt <= 300_000_000_000 then e else None
  {
    SweepUnobservable(ops, j);
    KeptIsOutstanding(ops, j, ops[j].state);
  }

  /** Replay: after one take of a state, another answers nothing until the state is put again. */
  lemma {:induction false} SingleUse(ops: seq<Op>, i: nat, j: nat)
    requires ClockForward(ops) && i < j < |ops| && ops[i].Take? && ops[j].Take? && ops[i].state == ops[j].state
    requires forall m :: i < m < j ==> !(ops[m].Put? && ops[m].state == ops[j].state)
    ensures Answer(ops, j, true) == None
  {
    TakeAnswersExactly(ops, j);
    NothingOutstanding(ops, i, j, ops[j].state);
  }

  lemma {:induction false} NothingOutstanding(ops: seq<Op>, i: nat, n: nat, state: string)
    requires i < n <= |ops| && ops[i].Take? && ops[i].state == state
    requires forall m :: i < m < n ==> !(ops[m].Put? && ops[m].state == state)
    ensures Outstanding(ops, n, state) == None
  {
    if n - 1 > i { NothingOutstanding(ops, i, n - 1, state); }
  }
}
