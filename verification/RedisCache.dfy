/** The Redis cache: reads go to the server at once, writes wait in a bounded queue for a writer. */
module RedisCache {
  import opened Text
  import opened Counter
  import opened CacheId
  import opened FileCache

  const WRITE_CHANNEL_CAPACITY: nat := 100
  const REDIS_KEY_PREFIX := "apiguard:cache"

  datatype Item = Write(key: string, value: Entry) | Expire(key: string)

  /** What the server holds under a key; without `until` it never expires. */
  datatype Cell = Cell(value: Entry, until: Option<Time>)

  /** `hand` is the operation the writer has received but not yet carried out. `accepted` and `applied`
      record all operations that were ever queued and carried out, in order. */
  datatype State = State(store: map<string, Cell>, queue: seq<Item>, hand: Option<Item>, now: Time,
                         accepted: seq<Item>, applied: seq<Item>)

  datatype Action =
    | Get(key: string)
    | Set(key: string, value: Entry)
    | Receive
    | CarryOut
    | Wait(until: Time)
    | Flush(tag: string)

  function TagPrefix(tag: string): string {
    REDIS_KEY_PREFIX + ":" + tag + ":"
  }

  function CacheKey(tag: string, id: string): string {
    TagPrefix(tag) + id
  }

  predicate Live(store: map<string, Cell>, key: string, now: Time) {
    key in store && (store[key].until == None || now < store[key].until.value)
  }

  /** A time-to-live of zero means that a written key never expires. */
  function Until(ttl: nat, now: Time): Option<Time> {
    if ttl == 0 then None else Some(now + ttl as real)
  }

  /** What an operation does on the server; setting a time-to-live of zero deletes the key. */
  function Effect(store: map<string, Cell>, x: Item, ttl: nat, now: Time): map<string, Cell> {
    match x
    case Write(key, value) => store[key := Cell(value, Until(ttl, now))]
    case Expire(key) =>
      if !Live(store, key, now) then store
      else if ttl == 0 then store - {key}
      else store[key := store[key].(until := Until(ttl, now))]
  }

  /** Queuing never blocks: when the queue is full, the operation is dropped. */
  function Enqueue(s: State, x: Item): State {
    if |s.queue| < WRITE_CHANNEL_CAPACITY then s.(queue := s.queue + [x], accepted := s.accepted + [x]) else s
  }

  predicate Enabled(s: State, a: Action) {
    match a
    case Receive => s.hand == None && s.queue != []
    case CarryOut => s.hand.Some?
    case Wait(until) => s.now <= until
    case _ => true
  }

  function Fire(s: State, ttl: nat, a: Action): State
    requires Enabled(s, a)
  {
    match a
    case Get(key) => if Live(s.store, key, s.now) then Enqueue(s, Expire(key)) else s
    case Set(key, value) => Enqueue(s, Write(key, value))
    case Receive => s.(hand := Some(s.queue[0]), queue := s.queue[1..])
    case CarryOut =>
      s.(store := Effect(s.store, s.hand.value, ttl, s.now), hand := None, applied := s.applied + [s.hand.value])
    case Wait(until) => s.(now := until)
    case Flush(tag) => s.(store := map k | k in s.store && !HasPrefix(k, TagPrefix(tag)) :: s.store[k])
  }

  function Answer(s: State, key: string): Lookup {
    if Live(s.store, key, s.now) then Hit(s.store[key].value) else Miss
  }

  // ----- the object -----

  class Redis {
    const ttlSecs: nat
    var store: map<string, Cell>
    var writeQueue: seq<Item>
    var hand: Option<Item>
    ghost var accepted: seq<Item>
    ghost var applied: seq<Item>

    ghost function Value(now: Time): State
      reads this
    {
      State(store, writeQueue, hand, now, accepted, applied)
    }

    constructor (ttlSecs: nat)
      ensures this.ttlSecs == ttlSecs
      ensures forall now :: Value(now) == State(map[], [], None, now, [], [])
    {
      this.ttlSecs := ttlSecs;
      store, writeQueue, hand := map[], [], None;
      accepted, applied := [], [];
    }

    method Get(req: Request, body: string, tag: string, opts: Options, now: Time) returns (r: Lookup)
      modifies this
      ensures var key := CacheKey(tag, Preimage(req, opts, body));
              if ShouldReadFromCache(req, opts)
              then r == Answer(old(Value(now)), key) && Value(now) == Fire(old(Value(now)), ttlSecs, Action.Get(key))
              else r == Miss && Value(now) == old(Value(now))
    {
      if !ShouldReadFromCache(req, opts) {
        return Miss;
      }
      var cacheID := CacheKey(tag, Preimage(req, opts, body));
      if !Live(store, cacheID, now) {
        return Miss;
      }
      r := Hit(store[cacheID].value);
      var queued := Offer(Expire(cacheID));
    }

    /** Returns whether the entry was queued or did not qualify. */
    method Set(req: Request, body: string, tag: string, resp: Entry, opts: Options, now: Time) returns (ok: bool)
      modifies this
      ensures var key := CacheKey(tag, Preimage(req, opts, body));
              if ShouldWriteToCache(req, resp.status, opts)
              then Value(now) == Fire(old(Value(now)), ttlSecs, Action.Set(key, resp)) &&
                   ok == (old(|writeQueue|) < WRITE_CHANNEL_CAPACITY)
              else ok && Value(now) == old(Value(now))
    {
      ok := true;
      if ShouldWriteToCache(req, resp.status, opts) {
        var cacheID := CacheKey(tag, Preimage(req, opts, body));
        ok := Offer(Write(cacheID, resp));
      }
    }

    method Offer(x: Item) returns (ok: bool)
      modifies this
      ensures ok == (old(|writeQueue|) < WRITE_CHANNEL_CAPACITY)
      ensures forall now :: Value(now) == Enqueue(old(Value(now)), x)
    {
      ok := |writeQueue| < WRITE_CHANNEL_CAPACITY;
      if ok {
        writeQueue := writeQueue + [x];
        accepted := accepted + [x];
      }
    }

    /** One turn of the writer's loop; requests may come between receiving and carrying out, which is why
        these are separate actions. */
    method WriterReceive(now: Time)
      requires hand == None && writeQueue != []
      modifies this
      ensures Value(now) == Fire(old(Value(now)), ttlSecs, Receive)
    {
      hand := Some(writeQueue[0]);
      writeQueue := writeQueue[1..];
    }

    method WriterCarryOut(now: Time)
      requires hand.Some?
      modifies this
      ensures Value(now) == Fire(old(Value(now)), ttlSecs, CarryOut)
    {
      match hand.value {
        case Write(key, value) =>
          store := store[key := Cell(value, Until(ttlSecs, now))];
        case Expire(key) =>
          if Live(store, key, now) {
            if ttlSecs == 0 {
              store := store - {key};
            } else {
              store := store[key := store[key].(until := Until(ttlSecs, now))];
            }
          }
      }
      applied := applied + [hand.value];
      hand := None;
    }

    method Flush(tag: string, now: Time) returns (count: nat)
      modifies this`store
      ensures Value(now) == Fire(old(Value(now)), ttlSecs, Action.Flush(tag))
      ensures count == |old(store)| - |store|
    {
      var matching := set k | k in store && HasPrefix(k, TagPrefix(tag));
      ghost var before := store;
      count := DeleteAll(matching);
      assert store == map k | k in before && !HasPrefix(k, TagPrefix(tag)) :: before[k];
    }

    method DeleteAll(keys: set<string>) returns (count: nat)
      requires keys <= store.Keys
      modifies this`store
      ensures store == map k | k in old(store) && k !in keys :: old(store)[k]
      ensures count == |old(store)| - |store|
    {
      ghost var before := store;
      var todo := keys;
      count := 0;
      while todo != {}
        invariant todo <= keys && keys <= before.Keys
        invariant store == map k | k in before && (k in todo || k !in keys) :: before[k]
        invariant count == |before| - |store|
        decreases |todo|
      {
        var key :| key in todo;
        todo := todo - {key};
        RemoveKey(store, key);
        store := store - {key};
        count := count + 1;
      }
    }
  }

  lemma RemoveKey(store: map<string, Cell>, key: string)
    requires key in store
    ensures |store - {key}| == |store| - 1
  {
    assert (store - {key}).Keys == store.Keys - {key};
    assert |store.Keys - {key}| == |store.Keys| - 1;
  }

  // ----- every run -----

  /** What waits to be carried out, in order. */
  function Pending(s: State): seq<Item> {
    (if s.hand.Some? then [s.hand.value] else []) + s.queue
  }

  function LastWrite(items: seq<Item>, key: string): Option<Entry> {
    if items == [] then None
    else
      var n := |items| - 1;
      match items[n]
      case Write(k, value) => if k == key then Some(value) else LastWrite(items[..n], key)
      case Expire(_) => LastWrite(items[..n], key)
  }

  /** The queue is bounded, operations are carried out in the order they were accepted, and a key holds
      the last value carried out for it. */
  ghost predicate Inv(s: State) {
    && |s.queue| <= WRITE_CHANNEL_CAPACITY
    && s.accepted == s.applied + Pending(s)
    && forall k <- s.store :: LastWrite(s.applied, k) == Some(s.store[k].value)
  }

  function Initial(now: Time): State {
    State(map[], [], None, now, [], [])
  }

  ghost predicate IsRun(start: Time, ttl: nat, actions: seq<Action>, states: seq<State>) {
    && |states| == |actions| + 1 && states[0] == Initial(start)
    && forall i :: 0 <= i < |actions| ==>
         Enabled(states[i], actions[i]) && states[i + 1] == Fire(states[i], ttl, actions[i])
  }

  lemma LastWriteStep(items: seq<Item>, x: Item, key: string)
    ensures LastWrite(items + [x], key) ==
            if x.Write? && x.key == key then Some(x.value) else LastWrite(items, key)
  {
    assert (items + [x])[..|items|] == items;
  }

  lemma EnqueueKeepsInv(s: State, x: Item)
    requires Inv(s)
    ensures Inv(Enqueue(s, x))
  {
    if |s.queue| < WRITE_CHANNEL_CAPACITY {
      assert Pending(Enqueue(s, x)) == Pending(s) + [x];
      assert (s.applied + Pending(s)) + [x] == s.applied + (Pending(s) + [x]);
    }
  }

  lemma StepKeepsInv(s: State, ttl: nat, a: Action)
    requires Inv(s) && Enabled(s, a)
    ensures Inv(Fire(s, ttl, a))
  {
    var t := Fire(s, ttl, a);
    match a
    case Get(key) => EnqueueKeepsInv(s, Expire(key));
    case Set(key, value) => EnqueueKeepsInv(s, Write(key, value));
    case Receive => assert Pending(t) == Pending(s);
    case CarryOut =>
      var x := s.hand.value;
      assert s.applied + Pending(s) == (s.applied + [x]) + s.queue;
      assert Pending(t) == s.queue;
      forall k <- t.store ensures LastWrite(t.applied, k) == Some(t.store[k].value) {
        LastWriteStep(s.applied, x, k);
      }
    case Wait(_) =>
    case Flush(_) =>
  }

  /** Every state of every run keeps the invariant. */
  lemma {:induction false} RunKeepsInv(start: Time, ttl: nat, actions: seq<Action>, states: seq<State>, i: nat)
    requires IsRun(start, ttl, actions, states) && i < |states|
    ensures Inv(states[i])
  {
    if i > 0 {
      RunKeepsInv(start, ttl, actions, states, i - 1);
      StepKeepsInv(states[i - 1], ttl, actions[i - 1]);
    }
  }

  lemma {:induction false} LastWriteIn(items: seq<Item>, key: string)
    requires LastWrite(items, key).Some?
    ensures Write(key, LastWrite(items, key).value) in items
  {
    var n := |items| - 1;
    assert items[n] in items;
    if items[n] != Write(key, LastWrite(items, key).value) {
      LastWriteIn(items[..n], key);
    }
  }

  /** Only a `Set` that found room in the queue gets a value accepted. */
  predicate Stored(actions: seq<Action>, states: seq<State>, j: nat, key: string, value: Entry) {
    && j < |actions| && j < |states| && actions[j] == Action.Set(key, value)
    && |states[j].queue| < WRITE_CHANNEL_CAPACITY
  }

  lemma {:induction false} AcceptedWereStored(start: Time, ttl: nat, actions: seq<Action>, states: seq<State>,
                                              i: nat, key: string, value: Entry)
    requires IsRun(start, ttl, actions, states) && i < |states|
    requires Write(key, value) in states[i].accepted
    ensures exists j: nat :: j < i && Stored(actions, states, j, key, value)
  {
    if i > 0 {
      if Write(key, value) in states[i - 1].accepted {
        AcceptedWereStored(start, ttl, actions, states, i - 1, key, value);
      } else {
        assert Stored(actions, states, i - 1, key, value);
      }
    }
  }

  /** In every run a hit returns a value that an earlier `Set` for the same key got accepted, and moreover
      the last one for that key among those carried out. */
  lemma HitsWereSet(start: Time, ttl: nat, actions: seq<Action>, states: seq<State>, i: nat, key: string)
    requires IsRun(start, ttl, actions, states) && i < |states|
    requires Answer(states[i], key).Hit?
    ensures var v := Answer(states[i], key).entry;
            && (exists j: nat :: j < i && Stored(actions, states, j, key, v))
            && LastWrite(states[i].applied, key) == Some(v) && states[i].applied <= states[i].accepted
  {
    var s := states[i];
    RunKeepsInv(start, ttl, actions, states, i);
    LastWriteIn(s.applied, key);
    AcceptedWereStored(start, ttl, actions, states, i, key, s.store[key].value);
  }

  /** Once nothing is pending, a key that is present holds the last accepted value for it. */
  lemma DrainedHoldsLastSet(start: Time, ttl: nat, actions: seq<Action>, states: seq<State>, i: nat, key: string)
    requires IsRun(start, ttl, actions, states) && i < |states|
    requires Pending(states[i]) == [] && key in states[i].store
    ensures LastWrite(states[i].accepted, key) == Some(states[i].store[key].value)
  {
    RunKeepsInv(start, ttl, actions, states, i);
    assert states[i].applied + [] == states[i].applied;
  }

  // ----- how long a value is served -----

  /** In step `j` the writer carries out `x`. */
  predicate CarriesOut(actions: seq<Action>, states: seq<State>, j: nat, x: Item) {
    j < |actions| && j < |states| && actions[j] == CarryOut && states[j].hand == Some(x)
  }

  /** In step `j` the key is neither written nor flushed. */
  ghost predicate KeepsKey(actions: seq<Action>, states: seq<State>, j: nat, key: string) {
    && (forall value :: !CarriesOut(actions, states, j, Write(key, value)))
    && (j < |actions| && actions[j].Flush? ==> !HasPrefix(key, TagPrefix(actions[j].tag)))
  }

  /** When a key written in step `i` was last used before step `n`: a refresh counts when it is carried out, and
      only if the key has not expired by then. */
  function LastUse(actions: seq<Action>, states: seq<State>, ttl: nat, key: string, i: nat, n: nat): Time
    requires i < n <= |actions| < |states|
  {
    if n == i + 1 then states[i].now
    else
      var used := LastUse(actions, states, ttl, key, i, n - 1);
      if CarriesOut(actions, states, n - 1, Expire(key)) && states[n - 1].now < used + ttl as real
      then states[n - 1].now
      else used
  }

  lemma {:induction false} CellSince(start: Time, ttl: nat, actions: seq<Action>, states: seq<State>, key: string,
                                     value: Entry, i: nat, n: nat)
    requires IsRun(start, ttl, actions, states) && i < n <= |actions| && ttl > 0
    requires CarriesOut(actions, states, i, Write(key, value))
    requires forall j :: i < j < n ==> KeepsKey(actions, states, j, key)
    ensures key in states[n].store
    ensures states[n].store[key] == Cell(value, Some(LastUse(actions, states, ttl, key, i, n) + ttl as real))
  {
    if n > i + 1 {
      var s, used := states[n - 1], LastUse(actions, states, ttl, key, i, n - 1);
      CellSince(start, ttl, actions, states, key, value, i, n - 1);
      KeptStep(s, ttl, actions, states, n - 1, key);
      RefreshedCell(s.store, key, value, used, ttl, s.now);
    }
  }

  lemma RefreshedCell(store: map<string, Cell>, key: string, value: Entry, used: Time, ttl: nat, now: Time)
    requires ttl > 0 && key in store && store[key] == Cell(value, Some(used + ttl as real))
    ensures var after := Effect(store, Expire(key), ttl, now);
            && key in after
            && after[key] == Cell(value, Some((if now < used + ttl as real then now else used) + ttl as real))
  {}

  /** What a step that keeps a key does to it. */
  lemma KeptStep(s: State, ttl: nat, actions: seq<Action>, states: seq<State>, j: nat, key: string)
    requires j < |actions| && j < |states| && states[j] == s && Enabled(s, actions[j])
    requires KeepsKey(actions, states, j, key)
    ensures var t := Fire(s, ttl, actions[j]);
            if CarriesOut(actions, states, j, Expire(key)) then t.store == Effect(s.store, Expire(key), ttl, s.now)
            else (key in t.store <==> key in s.store) && (key in s.store ==> t.store[key] == s.store[key])
  {
    if actions[j] == CarryOut {
      match s.hand.value
      case Write(k, value) => assert k == key ==> CarriesOut(actions, states, j, Write(key, value));
      case Expire(_) =>
    }
  }

  /** Once a value has been carried out, with no later one and no flush of its tag, it is served for the time to
      live and not longer, counted from that moment or from the last refresh that came in time. */
  lemma WrittenIsServed(start: Time, ttl: nat, actions: seq<Action>, states: seq<State>, key: string, value: Entry,
                        i: nat, n: nat)
    requires IsRun(start, ttl, actions, states) && i < n <= |actions| && ttl > 0
    requires CarriesOut(actions, states, i, Write(key, value))
    requires forall j :: i < j < n ==> KeepsKey(actions, states, j, key)
    ensures Answer(states[n], key) ==
            if states[n].now < LastUse(actions, states, ttl, key, i, n) + ttl as real then Hit(value) else Miss
  {
    CellSince(start, ttl, actions, states, key, value, i, n);
  }

  /** With a time-to-live of zero a value is served until the first refresh is carried out, which a lookup that
      finds it asks for. */
  lemma {:induction false} ServedUntilRefreshed(start: Time, actions: seq<Action>, states: seq<State>, key: string,
                                                value: Entry, i: nat, n: nat)
    requires IsRun(start, 0, actions, states) && i < n <= |actions|
    requires CarriesOut(actions, states, i, Write(key, value))
    requires forall j :: i < j < n ==> KeepsKey(actions, states, j, key)
    ensures key in states[n].store ==> states[n].store[key] == Cell(value, None)
    ensures Answer(states[n], key) ==
            if exists j :: i < j < n && CarriesOut(actions, states, j, Expire(key)) then Miss else Hit(value)
  {
    if n > i + 1 {
      ServedUntilRefreshed(start, actions, states, key, value, i, n - 1);
      KeptStep(states[n - 1], 0, actions, states, n - 1, key);
    }
  }

  // ----- flushing does not reach the queue -----

  /** The store after all pending operations have been carried out. */
  function Drained(store: map<string, Cell>, pending: seq<Item>, ttl: nat, now: Time): map<string, Cell> {
    if pending == [] then store
    else
      var n := |pending| - 1;
      Effect(Drained(store, pending[..n], ttl, now), pending[n], ttl, now)
  }

  predicate WritesAt(pending: seq<Item>, key: string, ttl: nat, i: nat) {
    && i < |pending| && pending[i].Write? && pending[i].key == key
    && (ttl == 0 ==> forall j :: i < j < |pending| ==> pending[j] != Expire(key))
  }

  lemma DrainedStep(store: map<string, Cell>, pending: seq<Item>, x: Item, ttl: nat, now: Time)
    ensures Drained(store, pending + [x], ttl, now) == Effect(Drained(store, pending, ttl, now), x, ttl, now)
  {
    assert (pending + [x])[..|pending|] == pending;
  }

  lemma {:induction false} DrainedKeysLive(store: map<string, Cell>, pending: seq<Item>, ttl: nat, now: Time,
                                           key: string)
    requires key !in store
    ensures key in Drained(store, pending, ttl, now) ==> Live(Drained(store, pending, ttl, now), key, now)
  {
    if pending != [] {
      DrainedKeysLive(store, pending[..|pending| - 1], ttl, now, key);
    }
  }

  /** A key that is absent when the writer starts to empty the queue is present afterwards exactly when a
      write for it was pending (and, with a time-to-live of zero, not followed by a refresh). */
  lemma {:induction false} PendingWritesReturn(store: map<string, Cell>, pending: seq<Item>, ttl: nat, now: Time,
                                               key: string)
    requires key !in store
    ensures key in Drained(store, pending, ttl, now) <==> exists i: nat :: WritesAt(pending, key, ttl, i)
  {
    if pending != [] {
      var n := |pending| - 1;
      var before, x := pending[..n], pending[n];
      PendingWritesReturn(store, before, ttl, now, key);
      DrainedKeysLive(store, before, ttl, now, key);
      if x.Write? && x.key == key {
        assert WritesAt(pending, key, ttl, n);
      } else if x == Expire(key) && ttl == 0 {
        forall i: nat ensures !WritesAt(pending, key, ttl, i) {
          assert i < n ==> pending[n] == Expire(key);
        }
      } else {
        forall i: nat ensures WritesAt(pending, key, ttl, i) <==> WritesAt(before, key, ttl, i) {
          assert i < n ==> before[i] == pending[i];
          assert forall j :: i < j < n ==> before[j] == pending[j];
        }
      }
    }
  }

  /** `n` steps of the writer, while no requests come. */
  function WriterRun(s: State, ttl: nat, n: nat): State
    decreases n
  {
    if n == 0 then s
    else if s.hand.Some? then WriterRun(Fire(s, ttl, CarryOut), ttl, n - 1)
    else if s.queue != [] then WriterRun(Fire(s, ttl, Receive), ttl, n - 1)
    else s
  }

  lemma {:induction false} WriterDrains(s: State, ttl: nat) returns (n: nat)
    ensures WriterRun(s, ttl, n).store == Drained(s.store, Pending(s), ttl, s.now)
    ensures Pending(WriterRun(s, ttl, n)) == []
    decreases |Pending(s)|, |s.queue|
  {
    if s.hand.Some? {
      var t := Fire(s, ttl, CarryOut);
      n := WriterDrains(t, ttl);
      n := n + 1;
      assert Pending(s) == [s.hand.value] + Pending(t);
      DrainedHead(s.store, s.hand.value, Pending(t), ttl, s.now);
    } else if s.queue != [] {
      var t := Fire(s, ttl, Receive);
      assert Pending(t) == Pending(s);
      n := WriterDrains(t, ttl);
      n := n + 1;
    } else {
      n := 0;
    }
  }

  lemma {:induction false} DrainedHead(store: map<string, Cell>, x: Item, rest: seq<Item>, ttl: nat, now: Time)
    ensures Drained(store, [x] + rest, ttl, now) == Drained(Effect(store, x, ttl, now), rest, ttl, now)
  {
    if rest == [] {
      assert [x] + rest == [] + [x];
      DrainedStep(store, [], x, ttl, now);
    } else {
      var n := |rest| - 1;
      assert ([x] + rest)[..n + 1] == [x] + rest[..n];
      DrainedHead(store, x, rest[..n], ttl, now);
    }
  }

  lemma {:induction false} DrainedStaysLive(store: map<string, Cell>, pending: seq<Item>, ttl: nat, now: Time,
                                            key: string)
    requires ttl > 0 && Live(store, key, now)
    ensures Live(Drained(store, pending, ttl, now), key, now)
  {
    if pending != [] {
      DrainedStaysLive(store, pending[..|pending| - 1], ttl, now, key);
    }
  }

  /** A lookup never changes what the server holds: it asks for a refresh if it finds a value and the queue has room,
      and does nothing otherwise. */
  lemma LookUpAsks(s: State, ttl: nat, key: string)
    ensures var t := Fire(s, ttl, Action.Get(key));
            if Answer(s, key).Hit? && |s.queue| < WRITE_CHANNEL_CAPACITY
            then t.accepted == s.accepted + [Expire(key)] && Pending(t) == Pending(s) + [Expire(key)] &&
                 t.store == s.store && t.applied == s.applied
            else t == s
  {}

  /** Time does not go back. */
  lemma {:induction false} TimePasses(start: Time, ttl: nat, actions: seq<Action>, states: seq<State>, i: nat, j: nat)
    requires IsRun(start, ttl, actions, states) && i <= j < |states|
    ensures states[i].now <= states[j].now
  {
    if i < j {
      TimePasses(start, ttl, actions, states, i, j - 1);
      assert Enabled(states[j - 1], actions[j - 1]);
    }
  }

  /** A lookup that finds a value prolongs its life, unless the queue is full: once the writer has carried out what
      is pending, the key can be had for the whole time to live from then on. */
  lemma HitProlongsLife(s: State, ttl: nat, key: string) returns (n: nat)
    requires ttl > 0 && Answer(s, key).Hit?
    ensures |s.queue| >= WRITE_CHANNEL_CAPACITY ==> Fire(s, ttl, Action.Get(key)) == s
    ensures |s.queue| < WRITE_CHANNEL_CAPACITY ==>
              var t := WriterRun(Fire(s, ttl, Action.Get(key)), ttl, n);
              && Pending(t) == [] && key in t.store && t.store[key].until == Some(s.now + ttl as real)
  {
    var u := Fire(s, ttl, Action.Get(key));
    n := WriterDrains(u, ttl);
    if |s.queue| < WRITE_CHANNEL_CAPACITY {
      assert Pending(u) == Pending(s) + [Expire(key)];
      DrainedStaysLive(s.store, Pending(s), ttl, s.now, key);
      DrainedStep(s.store, Pending(s), Expire(key), ttl, s.now);
    }
  }

  /** A flush deletes what the server holds, but not what is queued: after the flush and the writer's next
      pass, an item of the tag is back exactly when a write for it was pending during the flush. */
  lemma FlushSticksIff(s: State, ttl: nat, tag: string, id: string) returns (n: nat)
    ensures var t := WriterRun(Fire(s, ttl, Action.Flush(tag)), ttl, n);
            && Pending(t) == []
            && (CacheKey(tag, id) !in t.store <==> forall i: nat :: !WritesAt(Pending(s), CacheKey(tag, id), ttl, i))
  {
    var u := Fire(s, ttl, Action.Flush(tag));
    assert HasPrefix(CacheKey(tag, id), TagPrefix(tag));
    n := WriterDrains(u, ttl);
    PendingWritesReturn(u.store, Pending(u), ttl, u.now, CacheKey(tag, id));
    assert Pending(u) == Pending(s);
  }

  /** A run in which a flushed item comes back: it was accepted before the flush and written after it. */
  lemma FlushedItemReturns(tag: string, id: string, value: Entry, ttl: nat, now: Time)
    returns (actions: seq<Action>, states: seq<State>)
    ensures var key := CacheKey(tag, id);
            && actions == [Action.Set(key, value), Action.Flush(tag), Receive, CarryOut]
            && IsRun(now, ttl, actions, states) && Answer(states[4], key) == Hit(value)
  {
    var key := CacheKey(tag, id);
    actions := [Action.Set(key, value), Action.Flush(tag), Receive, CarryOut];
    var s0 := Initial(now);
    var s1 := Fire(s0, ttl, actions[0]);
    var s2 := Fire(s1, ttl, actions[1]);
    assert s2.queue == [Write(key, value)];
    var s3 := Fire(s2, ttl, Receive);
    var s4 := Fire(s3, ttl, CarryOut);
    states := [s0, s1, s2, s3, s4];
    assert key in s4.store && s4.store[key].value == value;
  }

  /** Items of different tags or ids have keys of their own. */
  lemma KeysIdentify(tag: string, id: string, other: string, otherId: string)
    requires ':' !in tag && ':' !in other
    ensures CacheKey(tag, id) == CacheKey(other, otherId) <==> tag == other && id == otherId
  {
    var base := REDIS_KEY_PREFIX + ":";
    var a, b := tag + [':'] + id, other + [':'] + otherId;
    assert CacheKey(tag, id) == base + a && CacheKey(other, otherId) == base + b;
    SameStart(base, a, b);
    if a == b {
      SplitUnique(tag, id, other, otherId, ':');
    }
  }

  /** Unlike in the file cache, flushing a tag reaches only the items of that tag. */
  lemma FlushKeepsOtherTags(tag: string, id: string, flushed: string)
    requires ':' !in tag && ':' !in flushed
    ensures HasPrefix(CacheKey(tag, id), TagPrefix(flushed)) <==> tag == flushed
  {
    var base := REDIS_KEY_PREFIX + ":";
    assert CacheKey(tag, id) == base + (tag + [':'] + id) && TagPrefix(flushed) == base + (flushed + [':']);
    SamePrefix(base, tag + [':'] + id, flushed + [':']);
    PrefixUpTo(tag, id, flushed, ':');
  }
}
