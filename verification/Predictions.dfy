/**
 The browser's prediction cache and its batched, interleaved evaluator. The cache
 holds the most recently used keys up to its capacity. A batch answers row for row
 what evaluating each row alone would, whatever other batches do while it waits.
 */
module Predictions {
  import opened Results
  import opened Sequences

  type Key = int
  type Value = int

  /** The network as a function of a row's key, which spells out everything the network sees. */
  type Network = Key -> Value

  const MAX_BATCH := 64

  function Removed(s: seq<Key>, k: Key): seq<Key>
  {
    if s == [] then []
    else if s[|s|-1] == k then Removed(s[..|s|-1], k)
    else Removed(s[..|s|-1], k) + [s[|s|-1]]
  }

  /** Deleting a key and inserting it again puts it last. */
  function Touched(s: seq<Key>, k: Key): (t: seq<Key>)
    ensures t != []
  {
    Removed(s, k) + [k]
  }

  function Tail(s: seq<Key>, n: nat): (t: seq<Key>)
    ensures |t| <= n
  {
    if |s| <= n then s else s[|s|-n..]
  }

  /** The distinct keys of a history of uses, the most recently used last. */
  function ByRecency(uses: seq<Key>): seq<Key>
  {
    if uses == [] then [] else Touched(ByRecency(uses[..|uses|-1]), uses[|uses|-1])
  }

  lemma {:induction false} RemovedAppend(a: seq<Key>, b: seq<Key>, k: Key)
    ensures Removed(a + b, k) == Removed(a, k) + Removed(b, k)
  {
    if b == [] {
      assert a + b == a;
    } else {
      var m := |b| - 1;
      assert (a + b)[..|a + b|-1] == a + b[..m];
      RemovedAppend(a, b[..m], k);
    }
  }

  lemma {:induction false} RemovedMembers(s: seq<Key>, k: Key)
    ensures forall x :: x in Removed(s, k) <==> x in s && x != k
    ensures k !in s ==> Removed(s, k) == s
    ensures Distinct(s) ==> Distinct(Removed(s, k)) && |Removed(s, k)| == |s| - (if k in s then 1 else 0)
  {
    if s != [] {
      var m := |s| - 1;
      RemovedMembers(s[..m], k);
      assert s == s[..m] + [s[m]];
      if Distinct(s) {
        forall i | 0 <= i < |Removed(s[..m], k)|
          ensures Removed(s[..m], k)[i] != s[m]
        {
          assert Removed(s[..m], k)[i] in Removed(s[..m], k);
        }
      }
    }
  }

  lemma TouchedIsDistinct(s: seq<Key>, k: Key)
    requires Distinct(s)
    ensures Touched(s, k)[|Touched(s, k)|-1] == k
    ensures Distinct(Touched(s, k)) && |Touched(s, k)| == |s| + (if k in s then 0 else 1)
    ensures forall x :: x in Touched(s, k) <==> x in s || x == k
  {
    RemovedMembers(s, k);
  }

  lemma {:induction false} ByRecencyIsDistinct(uses: seq<Key>)
    ensures Distinct(ByRecency(uses))
    ensures forall x :: x in ByRecency(uses) <==> x in uses
  {
    if uses != [] {
      var m := |uses| - 1;
      ByRecencyIsDistinct(uses[..m]);
      TouchedIsDistinct(ByRecency(uses[..m]), uses[m]);
      assert uses == uses[..m] + [uses[m]];
    }
  }

  /**
   Moving a key to the end, and then dropping the oldest key if there are too many, keeps
   exactly the most recently used keys: what was cut off earlier never has to come back.
   */
  lemma TouchKeepsTail(s: seq<Key>, k: Key, capacity: nat)
    requires Distinct(s) && capacity > 0
    ensures Tail(Touched(s, k), capacity) == Tail(Touched(Tail(s, capacity), k), capacity)
  {
    var t := Tail(s, capacity);
    var cut := s[..|s|-|t|];
    assert s == cut + t && (cut == [] || |t| == capacity);
    hide Tail, Removed, Distinct;
    RemovedAppend(cut, t, k);
    TailIsDistinct(s, cut, t);
    TouchedIsDistinct(t, k);
    RemovedMembers(cut, k);
    if k in t {
      NotBefore(cut, t, k);
    }
    assert Touched(s, k) == Removed(cut, k) + Touched(t, k);
    if cut == [] {
      assert Touched(s, k) == Touched(t, k) by { assert cut + t == t; }
    } else {
      TailAppend(Removed(cut, k), Touched(t, k), capacity);
    }
  }

  lemma TailIsDistinct(s: seq<Key>, cut: seq<Key>, t: seq<Key>)
    requires Distinct(s) && s == cut + t
    ensures Distinct(t)
  {
    forall x, y | 0 <= x < y < |t| ensures t[x] != t[y] { assert s[|cut| + x] == t[x] && s[|cut| + y] == t[y]; }
  }

  lemma NotBefore(cut: seq<Key>, t: seq<Key>, k: Key)
    requires Distinct(cut + t) && k in t
    ensures k !in cut && Removed(cut, k) == cut
  {
    var s := cut + t;
    var i :| 0 <= i < |t| && t[i] == k;
    forall j | 0 <= j < |cut| ensures cut[j] != k { assert s[j] == cut[j] && s[|cut| + i] == k; }
    RemovedMembers(cut, k);
  }

  lemma TailAppend(a: seq<Key>, x: seq<Key>, n: nat)
    requires |x| >= n
    ensures Tail(a + x, n) == Tail(x, n)
  {
  }

  /** What a cache holds: its keys from the oldest use to the latest, and their values. */
  datatype Cache = Cache(order: seq<Key>, values: map<Key, Value>)

  const NOTHING := Cache([], map[])

  /** Taking a key's value makes it the latest use. */
  function Got(c: Cache, key: Key): Cache
  {
    if key in c.values then c.(order := Touched(c.order, key)) else c
  }

  /** Storing one drops the oldest key if there are too many. */
  function Stored(c: Cache, key: Key, value: Value, capacity: nat): Cache
  {
    var order, values := Touched(c.order, key), c.values[key := value];
    if |order| > capacity then Cache(order[1..], Dropped(values, order[0])) else Cache(order, values)
  }

  /** The keys held are the most recently used ones of this history. */
  ghost predicate IsRecent(c: Cache, uses: seq<Key>, capacity: nat)
  {
    && capacity > 0 && c.order == Tail(ByRecency(uses), capacity)
    && Distinct(c.order) && (forall k :: k in c.values <==> k in c.order)
  }

  lemma NothingIsRecent(capacity: nat)
    requires capacity > 0
    ensures IsRecent(NOTHING, [], capacity)
  {
  }

  lemma GotIsRecent(c: Cache, uses: seq<Key>, capacity: nat, key: Key)
    requires IsRecent(c, uses, capacity) && key in c.values
    ensures IsRecent(Got(c, key), uses + [key], capacity)
  {
    UseOneMore(uses, key);
    ByRecencyIsDistinct(uses);
    TouchKeepsTail(ByRecency(uses), key, capacity);
    TouchedIsDistinct(c.order, key);
  }

  lemma StoredIsRecent(c: Cache, uses: seq<Key>, capacity: nat, key: Key, value: Value)
    requires IsRecent(c, uses, capacity)
    ensures var after := Stored(c, key, value, capacity);
      && IsRecent(after, uses + [key], capacity) && key in after.values && after.values[key] == value
      && (forall k :: k in after.values && k != key ==> k in c.values && after.values[k] == c.values[k])
  {
    hide ByRecency, Touched, Distinct, Tail, Dropped;
    UseOneMore(uses, key);
    ByRecencyIsDistinct(uses);
    TouchKeepsTail(ByRecency(uses), key, capacity);
    StoredKeys(c.values, c.order, key, value, capacity);
  }

  class PredictionCache {
    const capacity: nat
    var order: seq<Key>
    var values: map<Key, Value>
    ghost var uses: seq<Key>

    function Contents(): Cache
      reads this
    {
      Cache(order, values)
    }

    ghost predicate Valid()
      reads this
    {
      IsRecent(Contents(), uses, capacity)
    }

    constructor (capacity: nat)
      requires capacity > 0
      ensures Valid() && this.capacity == capacity && Contents() == NOTHING && uses == []
    {
      this.capacity := capacity;
      order, values, uses := [], map[], [];
    }

    method Get(key: Key) returns (value: Option<Value>)
      requires Valid()
      modifies this
      ensures Valid() && Contents() == Got(old(Contents()), key) && values == old(values)
      ensures value == if key in old(values) then Some(old(values)[key]) else None
      ensures uses == if value.Some? then old(uses) + [key] else old(uses)
    {
      if key !in values {
        return None;
      }
      GotIsRecent(Contents(), uses, capacity, key);
      order := Touched(order, key);
      uses := uses + [key];
      return Some(values[key]);
    }

    method Set(key: Key, value: Value)
      requires Valid()
      modifies this
      ensures Valid() && Contents() == Stored(old(Contents()), key, value, capacity) && uses == old(uses) + [key]
    {
      StoredIsRecent(Contents(), uses, capacity, key, value);
      order := Touched(order, key);
      values := values[key := value];
      if |order| > capacity {
        values := Dropped(values, order[0]);
        order := order[1..];
      }
      uses := uses + [key];
    }
  }

  function Dropped(values: map<Key, Value>, k: Key): map<Key, Value>
  {
    values - {k}
  }

  /** What storing a key leaves: the tail of the touched order, and the values of its keys. */
  lemma StoredKeys(values: map<Key, Value>, order: seq<Key>, key: Key, value: Value, capacity: nat)
    requires Distinct(order) && |order| <= capacity && capacity > 0 && forall k :: k in values <==> k in order
    ensures var touched := Touched(order, key);
      var more := values[key := value];
      var order' := if |touched| > capacity then touched[1..] else touched;
      var values' := if |touched| > capacity then Dropped(more, touched[0]) else more;
      && order' == Tail(touched, capacity) && Distinct(order')
      && (forall k :: k in values' <==> k in order')
      && key in values' && values'[key] == value
      && (forall k :: k in values' && k != key ==> k in values && values'[k] == values[k])
  {
    TouchedIsDistinct(order, key);
    OldestDropped(Touched(order, key), key, capacity);
    hide Distinct, Touched, Tail;
  }

  lemma OldestDropped(s: seq<Key>, key: Key, capacity: nat)
    requires Distinct(s) && s != [] && s[|s|-1] == key && capacity > 0 && |s| <= capacity + 1
    ensures |s| > capacity ==> Tail(s, capacity) == s[1..] && s[0] != key && Distinct(s[1..])
    ensures |s| > capacity ==> forall k :: k in s[1..] <==> k in s && k != s[0]
    ensures |s| <= capacity ==> Tail(s, capacity) == s
  {
    if |s| > capacity {
      assert s == [s[0]] + s[1..];
    }
  }

  lemma UseOneMore(uses: seq<Key>, key: Key)
    ensures ByRecency(uses + [key]) == Touched(ByRecency(uses), key)
  {
    assert (uses + [key])[..|uses|] == uses;
  }

  // Batches.

  datatype Row = Row(key: Key, rings: int)

  /** Every entry is what the network answers. */
  predicate Correct(values: map<Key, Value>, network: Network)
  {
    forall k :: k in values ==> values[k] == network(k)
  }

  /** The keys of a batch that the cache does not hold, each once, in order of first appearance. */
  function Missing(keys: seq<Key>, cached: map<Key, Value>): seq<Key>
  {
    if keys == [] then []
    else
      var before, k := Missing(keys[..|keys|-1], cached), keys[|keys|-1];
      if k in cached || k in before then before else before + [k]
  }

  lemma {:induction false} MissingAreDistinct(keys: seq<Key>, cached: map<Key, Value>)
    ensures Distinct(Missing(keys, cached))
    ensures forall k :: k in Missing(keys, cached) <==> k in keys && k !in cached
  {
    if keys != [] {
      var m := |keys| - 1;
      MissingAreDistinct(keys[..m], cached);
      assert keys == keys[..m] + [keys[m]];
    }
  }

  /** The keys of a batch that it does hold, likewise. */
  function Found(keys: seq<Key>, cached: map<Key, Value>): seq<Key>
  {
    if keys == [] then []
    else
      var before, k := Found(keys[..|keys|-1], cached), keys[|keys|-1];
      if k in cached && k !in before then before + [k] else before
  }

  lemma {:induction false} FoundAre(keys: seq<Key>, cached: map<Key, Value>)
    ensures forall k :: k in Found(keys, cached) <==> k in keys && k in cached
  {
    if keys != [] {
      var m := |keys| - 1;
      FoundAre(keys[..m], cached);
      assert keys == keys[..m] + [keys[m]];
    }
  }

  function Resolved(keys: seq<Key>, cached: map<Key, Value>): map<Key, Value>
  {
    map k | k in keys && k in cached :: cached[k]
  }

  /** The cache after taking these keys in turn. */
  function Touching(c: Cache, keys: seq<Key>): (r: Cache)
    ensures r.values == c.values
  {
    if keys == [] then c else Got(Touching(c, keys[..|keys|-1]), keys[|keys|-1])
  }

  /** The cache after storing the network's answer for these keys in turn. */
  function Storing(c: Cache, keys: seq<Key>, network: Network, capacity: nat): Cache
  {
    if keys == [] then c
    else Stored(Storing(c, keys[..|keys|-1], network, capacity), keys[|keys|-1], network(keys[|keys|-1]), capacity)
  }

  function Answered(keys: seq<Key>, network: Network): map<Key, Value>
  {
    map k | k in keys :: network(k)
  }

  lemma {:induction false} TouchingIsRecent(c: Cache, uses: seq<Key>, capacity: nat, keys: seq<Key>)
    requires IsRecent(c, uses, capacity) && forall k :: k in keys ==> k in c.values
    ensures IsRecent(Touching(c, keys), uses + keys, capacity)
  {
    hide IsRecent, Got;
    if keys == [] {
      assert uses + keys == uses;
    } else {
      var m := |keys| - 1;
      TouchingIsRecent(c, uses, capacity, keys[..m]);
      GotIsRecent(Touching(c, keys[..m]), uses + keys[..m], capacity, keys[m]);
      assert uses + keys == uses + keys[..m] + [keys[m]];
    }
  }

  lemma {:induction false} StoringIsRecent(c: Cache, uses: seq<Key>, capacity: nat, keys: seq<Key>, network: Network)
    requires IsRecent(c, uses, capacity) && Correct(c.values, network)
    ensures IsRecent(Storing(c, keys, network, capacity), uses + keys, capacity)
    ensures Correct(Storing(c, keys, network, capacity).values, network)
  {
    hide IsRecent, Stored;
    if keys == [] {
      assert uses + keys == uses;
    } else {
      var m := |keys| - 1;
      StoringIsRecent(c, uses, capacity, keys[..m], network);
      StoredIsRecent(Storing(c, keys[..m], network, capacity), uses + keys[..m], capacity, keys[m], network(keys[m]));
      assert uses + keys == uses + keys[..m] + [keys[m]];
    }
  }

  lemma LookupStep(before: Cache, done: seq<Key>, key: Key)
    ensures var found, missing, resolved := Found(done, before.values), Missing(done, before.values), Resolved(done, before.values);
      var found', missing', resolved' := Found(done + [key], before.values), Missing(done + [key], before.values), Resolved(done + [key], before.values);
      if key in resolved || key in missing then found' == found && missing' == missing && resolved' == resolved
      else if key in before.values then
        && missing' == missing && resolved' == resolved[key := before.values[key]]
        && found' == found + [key] && Touching(before, found') == Got(Touching(before, found), key)
      else missing' == missing + [key] && found' == found && resolved' == resolved
  {
    assert (done + [key])[..|done|] == done;
    MissingAreDistinct(done, before.values);
    FoundAre(done, before.values);
    var found := Found(done, before.values);
    assert (found + [key])[..|found|] == found;
    hide Got;
    if key !in done && key in before.values {
      assert Resolved(done + [key], before.values) == Resolved(done, before.values)[key := before.values[key]];
    } else {
      assert Resolved(done + [key], before.values) == Resolved(done, before.values);
    }
  }

  /** Where the first half is after some rows: what was taken, touched and is missing. */
  ghost predicate LookedUp(before: Cache, uses: seq<Key>, done: seq<Key>, now: Cache, usesNow: seq<Key>,
                           resolved: map<Key, Value>, missing: seq<Key>)
  {
    && now == Touching(before, Found(done, before.values)) && usesNow == uses + Found(done, before.values)
    && resolved == Resolved(done, before.values) && missing == Missing(done, before.values)
  }

  lemma LookedUpOneMore(before: Cache, uses: seq<Key>, done: seq<Key>, now: Cache, usesNow: seq<Key>,
                        resolved: map<Key, Value>, missing: seq<Key>, key: Key)
    requires LookedUp(before, uses, done, now, usesNow, resolved, missing)
    ensures now.values == before.values
    ensures if key in resolved || key in missing then LookedUp(before, uses, done + [key], now, usesNow, resolved, missing)
      else if key in before.values then
        LookedUp(before, uses, done + [key], Got(now, key), usesNow + [key], resolved[key := before.values[key]], missing)
      else LookedUp(before, uses, done + [key], now, usesNow, resolved, missing + [key])
  {
    hide Got, Resolved, Missing, Found, Touching;
    LookupStep(before, done, key);
    assert usesNow + [key] == uses + (Found(done, before.values) + [key]);
  }

  /** The first half of a batch: take what the cache holds. */
  method Lookup(cache: PredictionCache, keys: seq<Key>) returns (resolved: map<Key, Value>, missing: seq<Key>)
    requires cache.Valid()
    modifies cache
    ensures cache.Valid()
    ensures LookedUp(old(cache.Contents()), old(cache.uses), keys, cache.Contents(), cache.uses, resolved, missing)
  {
    ghost var before, uses := cache.Contents(), cache.uses;
    resolved, missing := map[], [];
    assert keys[..0] == [];
    NothingLooked(before, uses);
    hide *;
    for i := 0 to |keys|
      invariant cache.Valid()
      invariant LookedUp(before, uses, keys[..i], cache.Contents(), cache.uses, resolved, missing)
    {
      var key := keys[i];
      assert keys[..i+1] == keys[..i] + [key];
      LookedUpOneMore(before, uses, keys[..i], cache.Contents(), cache.uses, resolved, missing, key);
      if key !in resolved && key !in missing {
        var cached := cache.Get(key);
        if cached.Some? {
          resolved := resolved[key := cached.value];
        } else {
          missing := missing + [key];
        }
      }
    }
    assert keys[..|keys|] == keys;
  }

  lemma NothingLooked(before: Cache, uses: seq<Key>)
    ensures LookedUp(before, uses, [], before, uses, map[], [])
  {
  }

  /** Where the second half is after some of the missing keys. */
  ghost predicate Published(before: Cache, uses: seq<Key>, resolved0: map<Key, Value>, network: Network, capacity: nat, done: seq<Key>,
                            now: Cache, usesNow: seq<Key>, resolved: map<Key, Value>)
  {
    && now == Storing(before, done, network, capacity) && usesNow == uses + done
    && resolved == resolved0 + Answered(done, network)
  }

  lemma PublishedOneMore(before: Cache, uses: seq<Key>, resolved0: map<Key, Value>, network: Network, capacity: nat, done: seq<Key>,
                         now: Cache, usesNow: seq<Key>, resolved: map<Key, Value>, key: Key)
    requires Published(before, uses, resolved0, network, capacity, done, now, usesNow, resolved)
    ensures Published(before, uses, resolved0, network, capacity, done + [key],
                      Stored(now, key, network(key), capacity), usesNow + [key], resolved[key := network(key)])
  {
    assert (done + [key])[..|done|] == done;
    hide Stored;
    assert Answered(done + [key], network) == Answered(done, network)[key := network(key)];
  }

  lemma NothingPublished(before: Cache, uses: seq<Key>, resolved: map<Key, Value>, network: Network, capacity: nat)
    ensures Published(before, uses, resolved, network, capacity, [], before, uses, resolved)
  {
    assert resolved + Answered([], network) == resolved;
  }

  /** The second half: store the network's answers. Other batches may have changed the cache since the first half. */
  method Publish(cache: PredictionCache, missing: seq<Key>, resolved0: map<Key, Value>, network: Network)
    returns (resolved: map<Key, Value>)
    requires cache.Valid()
    modifies cache
    ensures cache.Valid()
    ensures Published(old(cache.Contents()), old(cache.uses), resolved0, network, cache.capacity, missing, cache.Contents(), cache.uses, resolved)
  {
    hide *;
    ghost var before, uses, capacity := cache.Contents(), cache.uses, cache.capacity;
    resolved := resolved0;
    NothingPublished(before, uses, resolved, network, capacity);
    assert missing[..0] == [];
    for i := 0 to |missing|
      invariant cache.Valid()
      invariant Published(before, uses, resolved0, network, capacity, missing[..i], cache.Contents(), cache.uses, resolved)
    {
      var key := missing[i];
      assert missing[..i+1] == missing[..i] + [key];
      PublishedOneMore(before, uses, resolved0, network, capacity, missing[..i], cache.Contents(), cache.uses, resolved, key);
      var prediction := network(key);
      cache.Set(key, prediction);
      resolved := resolved[key := prediction];
    }
    assert missing[..|missing|] == missing;
  }

  /** All rows on one board, and not too many. */
  predicate FitsBatch(rows: seq<Row>)
  {
    |rows| <= MAX_BATCH && forall i :: 0 <= i < |rows| ==> rows[i].rings == rows[0].rings
  }

  function KeysOf(rows: seq<Row>): (keys: seq<Key>)
    ensures |keys| == |rows| && forall i :: 0 <= i < |rows| ==> keys[i] == rows[i].key
  {
    seq(|rows|, i requires 0 <= i < |rows| => rows[i].key)
  }

  /** What a batch returns, row for row. */
  function Answers(rows: seq<Row>, resolved: map<Key, Value>): (r: seq<Option<Value>>)
    ensures |r| == |rows|
  {
    seq(|rows|, i requires 0 <= i < |rows| => if rows[i].key in resolved then Some(resolved[rows[i].key]) else None)
  }

  /** Each row's own evaluation. */
  predicate IsAnswered(rows: seq<Row>, answers: seq<Option<Value>>, network: Network)
  {
    |answers| == |rows| && forall i :: 0 <= i < |rows| ==> answers[i] == Some(network(rows[i].key))
  }

  lemma AnswersAreCorrect(rows: seq<Row>, cached: map<Key, Value>, network: Network)
    requires Correct(cached, network)
    ensures var keys := KeysOf(rows);
      IsAnswered(rows, Answers(rows, Resolved(keys, cached) + Answered(Missing(keys, cached), network)), network)
  {
    var keys := KeysOf(rows);
    MissingAreDistinct(keys, cached);
    forall i | 0 <= i < |rows|
      ensures Answers(rows, Resolved(keys, cached) + Answered(Missing(keys, cached), network))[i] == Some(network(rows[i].key))
    {
      assert keys[i] in keys;
    }
  }

  /**
   A batch on its own. It succeeds with each row's own evaluation, whatever the cache held
   and however often a key repeats. The network is asked about each distinct key the cache
   did not hold, once. A batch that fails leaves every cached prediction as it was.
   */
  method EvaluateBatch(cache: PredictionCache, rows: seq<Row>, network: Network, runs: bool)
    returns (result: Result<seq<Option<Value>>>, asked: seq<Key>)
    requires cache.Valid() && Correct(cache.values, network)
    modifies cache
    ensures cache.Valid() && Correct(cache.values, network)
    ensures result.Success? <==> FitsBatch(rows) && (runs || Missing(KeysOf(rows), old(cache.values)) == [])
    ensures result.Success? ==> IsAnswered(rows, result.value, network)
    ensures asked == if FitsBatch(rows) then Missing(KeysOf(rows), old(cache.values)) else []
    ensures cache.Contents() ==
      if !FitsBatch(rows) then old(cache.Contents())
      else
        var looked := Touching(old(cache.Contents()), Found(KeysOf(rows), old(cache.values)));
        if result.Success? then Storing(looked, asked, network, cache.capacity) else looked
  {
    if rows == [] {
      return Success([]), [];
    }
    if |rows| > MAX_BATCH || exists i :: 0 <= i < |rows| && rows[i].rings != rows[0].rings {
      return Failure("Local inference batch is too large or mixes boards."), [];
    }
    hide *;
    var keys := KeysOf(rows);
    AnswersAreCorrect(rows, cache.values, network);
    var resolved, missing := Lookup(cache, keys);
    asked := missing;
    assert Correct(cache.values, network);
    StoringIsRecent(cache.Contents(), cache.uses, cache.capacity, missing, network);
    if missing != [] {
      if !runs {
        return Failure("inference failed"), missing;
      }
      resolved := Publish(cache, missing, resolved, network);
    }
    result := Success(Answers(rows, resolved));
  }

  // Interleaved batches: while one waits for the network, others look up and publish.

  datatype Batch =
    | Waiting(rows: seq<Row>, resolved: map<Key, Value>, missing: seq<Key>)
    | Answering(rows: seq<Row>, answers: seq<Option<Value>>)
    | Rejected(rows: seq<Row>)
    | Failed(rows: seq<Row>)

  datatype System = System(cache: Cache, uses: seq<Key>, batches: map<int, Batch>)

  datatype Event = Begin(id: int, rows: seq<Row>) | Finish(id: int) | Fail(id: int)

  predicate Enabled(s: System, e: Event)
  {
    match e
    case Begin(id, _) => id !in s.batches
    case Finish(id) => id in s.batches && s.batches[id].Waiting?
    case Fail(id) => id in s.batches && s.batches[id].Waiting?
  }

  function Started(s: System, id: int, rows: seq<Row>): System
  {
    if !FitsBatch(rows) then s.(batches := s.batches[id := Rejected(rows)])
    else
      var keys := KeysOf(rows);
      var found, missing, resolved := Found(keys, s.cache.values), Missing(keys, s.cache.values), Resolved(keys, s.cache.values);
      var batch := if missing == [] then Answering(rows, Answers(rows, resolved)) else Waiting(rows, resolved, missing);
      System(Touching(s.cache, found), s.uses + found, s.batches[id := batch])
  }

  function Finished(s: System, id: int, network: Network, capacity: nat): System
    requires Enabled(s, Finish(id))
  {
    var b := s.batches[id];
    System(Storing(s.cache, b.missing, network, capacity), s.uses + b.missing,
           s.batches[id := Answering(b.rows, Answers(b.rows, b.resolved + Answered(b.missing, network)))])
  }

  /** Only a batch that waits for the network can finish or fail. */
  function Step(s: System, e: Event, network: Network, capacity: nat): System
    requires Enabled(s, e)
  {
    match e
    case Begin(id, rows) => Started(s, id, rows)
    case Finish(id) => Finished(s, id, network, capacity)
    case Fail(id) => s.(batches := s.batches[id := Failed(s.batches[id].rows)])
  }

  function Run(events: seq<Event>, network: Network, capacity: nat): Option<System>
  {
    if events == [] then Some(System(NOTHING, [], map[]))
    else
      var before, e := Run(events[..|events|-1], network, capacity), events[|events|-1];
      if before.Some? && Enabled(before.value, e) then Some(Step(before.value, e, network, capacity)) else None
  }

  /** Answered row for row; rejected exactly when it does not fit; what waits has been looked up in a correct cache. */
  ghost predicate BatchInv(b: Batch, network: Network)
  {
    && (b.Rejected? <==> !FitsBatch(b.rows))
    && (b.Answering? ==> IsAnswered(b.rows, b.answers, network))
    && (b.Waiting? ==> IsAnswered(b.rows, Answers(b.rows, b.resolved + Answered(b.missing, network)), network))
  }

  ghost predicate Inv(s: System, network: Network, capacity: nat)
  {
    && IsRecent(s.cache, s.uses, capacity) && Correct(s.cache.values, network)
    && forall id :: id in s.batches ==> BatchInv(s.batches[id], network)
  }

  lemma StartedKeepsInv(s: System, id: int, rows: seq<Row>, network: Network, capacity: nat)
    requires Inv(s, network, capacity) && id !in s.batches
    ensures Inv(Started(s, id, rows), network, capacity)
  {
    var keys := KeysOf(rows);
    var missing, resolved := Missing(keys, s.cache.values), Resolved(keys, s.cache.values);
    FoundAre(keys, s.cache.values);
    assert missing == [] ==> resolved + Answered(missing, network) == resolved;
    hide FitsBatch, KeysOf, Found, Missing, Resolved, Answers, IsRecent, Correct, IsAnswered, Answered, Touching;
    AnswersAreCorrect(rows, s.cache.values, network);
    TouchingIsRecent(s.cache, s.uses, capacity, Found(keys, s.cache.values));
    var after := Started(s, id, rows);
    assert BatchInv(after.batches[id], network);
    forall other | other in after.batches ensures BatchInv(after.batches[other], network) {
      assert other == id || other in s.batches;
    }
  }

  lemma FinishedKeepsInv(s: System, id: int, network: Network, capacity: nat)
    requires Inv(s, network, capacity) && Enabled(s, Finish(id))
    ensures Inv(Finished(s, id, network, capacity), network, capacity)
  {
    hide FitsBatch, Answers, IsRecent, Correct, IsAnswered, Answered, Storing;
    StoringIsRecent(s.cache, s.uses, capacity, s.batches[id].missing, network);
  }

  /**
   However batches interleave, the cache holds only correct predictions, of the most
   recently used keys up to its capacity, and every batch that is answered has each row's
   own evaluation. A batch that fails leaves the cache as it was.
   */
  lemma {:induction false} BatchesAreAnswered(events: seq<Event>, network: Network, capacity: nat)
    requires capacity > 0 && Run(events, network, capacity).Some?
    ensures var s := Run(events, network, capacity).value;
      && Inv(s, network, capacity) && |s.cache.order| <= capacity
      && (forall id :: id in s.batches && s.batches[id].Answering? ==> IsAnswered(s.batches[id].rows, s.batches[id].answers, network))
  {
    hide Inv, IsRecent, Enabled, Started, Finished, IsAnswered;
    if events == [] {
      NothingIsRecent(capacity);
      NothingInv(network, capacity);
    } else {
      var m := |events| - 1;
      BatchesAreAnswered(events[..m], network, capacity);
      StepKeepsInv(Run(events[..m], network, capacity).value, events[m], network, capacity);
    }
    InvMeans(Run(events, network, capacity).value, network, capacity);
  }

  lemma NothingInv(network: Network, capacity: nat)
    requires capacity > 0
    ensures Inv(System(NOTHING, [], map[]), network, capacity)
  {
    NothingIsRecent(capacity);
  }

  lemma InvMeans(s: System, network: Network, capacity: nat)
    requires Inv(s, network, capacity)
    ensures |s.cache.order| <= capacity
    ensures forall id :: id in s.batches && s.batches[id].Answering? ==> IsAnswered(s.batches[id].rows, s.batches[id].answers, network)
  {
    hide IsAnswered;
  }

  lemma StepKeepsInv(s: System, e: Event, network: Network, capacity: nat)
    requires Inv(s, network, capacity) && Enabled(s, e)
    ensures Inv(Step(s, e, network, capacity), network, capacity)
    ensures e.Fail? ==> Step(s, e, network, capacity).cache == s.cache
  {
    hide Started, Finished, IsRecent, Correct, IsAnswered, FitsBatch;
    match e {
      case Begin(id, rows) => StartedKeepsInv(s, id, rows, network, capacity);
      case Finish(id) => FinishedKeepsInv(s, id, network, capacity);
      case Fail(id) =>
    }
  }

  /** A batch is rejected exactly for more than 64 rows or for rows of two boards; a failed one stays unanswered. */
  lemma OnlyBadBatchesAreRejected(s: System, id: int, rows: seq<Row>, network: Network, capacity: nat)
    requires id !in s.batches
    ensures var b := Step(s, Begin(id, rows), network, capacity).batches[id];
      && b.rows == rows && (b.Rejected? <==> |rows| > 64 || exists i, j :: 0 <= i < j < |rows| && rows[i].rings != rows[j].rings)
      && (!b.Rejected? ==> b.Answering? || b.Waiting?)
  {
    if !FitsBatch(rows) && |rows| <= 64 {
      var i :| 0 <= i < |rows| && rows[i].rings != rows[0].rings;
      assert rows[0].rings != rows[i].rings;
    }
    hide Touching, Found, Missing, Resolved, Answers;
  }

  lemma WaitingBatchesEnd(s: System, id: int, network: Network, capacity: nat)
    requires id in s.batches && s.batches[id].Waiting?
    ensures var after := Step(s, Finish(id), network, capacity); after.batches[id].Answering? && after.batches[id].rows == s.batches[id].rows
    ensures var after := Step(s, Fail(id), network, capacity); after.batches[id] == Failed(s.batches[id].rows) && after.cache == s.cache
  {
    hide Storing, Answers, Answered;
  }
}
