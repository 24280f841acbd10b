/**
 * The handler cache of CqrConfiguration: a map from request type to
 * (handler type, HandleRequestAsync method), filled with first-wins TryAdd.
 */
module HandlerCache {
  import opened Wrappers
  import opened Reflection
  import opened Discovery

  /** A cache value: the handler type and the (possibly null) method to invoke on it. */
  datatype Entry = Entry(handler: TypeId, entryPoint: Option<MethodRef>)

  type Cache = map<TypeId, Entry>

  function EntryOf(info: HandlerInfo): Entry
  {
    Entry(info.handler, info.entryPoint)
  }

  /** The request types the records are keyed by. */
  function RequestTypes(infos: seq<HandlerInfo>): set<TypeId>
  {
    set info | info in infos :: info.requestType
  }

  /** ConcurrentDictionary.TryAdd: inserts the record's entry only when its request type is absent. */
  function TryAdd(cache: Cache, info: HandlerInfo): Cache
  {
    if info.requestType in cache then cache else cache[info.requestType := EntryOf(info)]
  }

  /** The foreach loop of LoadHandlers: TryAdd of every record, in order. */
  function TryAddAll(cache: Cache, infos: seq<HandlerInfo>): Cache
    decreases infos
  {
    if infos == [] then cache else TryAddAll(TryAdd(cache, infos[0]), infos[1..])
  }

  /** TryAdd never overwrites: the key is present afterwards, and every earlier entry is kept. */
  lemma TryAddNeverOverwrites(cache: Cache, info: HandlerInfo)
    ensures TryAdd(cache, info).Keys == cache.Keys + {info.requestType}
    ensures forall k :: k in cache ==> TryAdd(cache, info)[k] == cache[k]
    ensures info.requestType !in cache ==> TryAdd(cache, info)[info.requestType] == EntryOf(info)
  {
  }

  /**
   * The cache only grows: afterwards it holds every earlier key with its
   * earlier entry, and exactly the records' request types besides.
   */
  lemma {:induction false} TryAddAllGrows(cache: Cache, infos: seq<HandlerInfo>)
    ensures TryAddAll(cache, infos).Keys == cache.Keys + RequestTypes(infos)
    ensures forall k :: k in cache ==> TryAddAll(cache, infos)[k] == cache[k]
    decreases infos
  {
    if infos != [] {
      TryAddAllGrows(TryAdd(cache, infos[0]), infos[1..]);
      assert RequestTypes(infos) == {infos[0].requestType} + RequestTypes(infos[1..]) by {
        assert forall info :: info in infos <==> info == infos[0] || info in infos[1..];
      }
    }
  }

  /** One iteration of the loop: the first `i + 1` records are the first `i` followed by a TryAdd of record `i`. */
  lemma {:induction false} TryAddAllSnoc(cache: Cache, infos: seq<HandlerInfo>, i: nat)
    requires i < |infos|
    ensures TryAddAll(cache, infos[..i + 1]) == TryAdd(TryAddAll(cache, infos[..i]), infos[i])
    decreases i
  {
    if i > 0 {
      TryAddAllSnoc(TryAdd(cache, infos[0]), infos[1..], i - 1);
      assert infos[..i + 1][1..] == infos[1..][..i];
      assert infos[..i][1..] == infos[1..][..i - 1];
    }
  }

  /**
   * First wins: for a key not yet cached, the entry kept is that of the
   * first record with that request type; later records are ignored.
   */
  lemma {:induction false} FirstWins(cache: Cache, infos: seq<HandlerInfo>, j: nat)
    requires j < |infos| && infos[j].requestType !in cache
    requires forall j' :: 0 <= j' < j ==> infos[j'].requestType != infos[j].requestType
    ensures infos[j].requestType in TryAddAll(cache, infos)
    ensures TryAddAll(cache, infos)[infos[j].requestType] == EntryOf(infos[j])
    decreases j
  {
    if j == 0 {
      TryAddAllGrows(TryAdd(cache, infos[0]), infos[1..]);
    } else {
      FirstWins(TryAdd(cache, infos[0]), infos[1..], j - 1);
    }
  }

  /** Every entry the loop added comes from a record with that request type. */
  lemma {:induction false} AddedEntriesHaveASource(cache: Cache, infos: seq<HandlerInfo>, k: TypeId)
    requires k in TryAddAll(cache, infos) && k !in cache
    ensures exists info :: info in infos && info.requestType == k && TryAddAll(cache, infos)[k] == EntryOf(info)
    decreases infos
  {
    if infos[0].requestType == k {
      TryAddAllGrows(TryAdd(cache, infos[0]), infos[1..]);
    } else {
      AddedEntriesHaveASource(TryAdd(cache, infos[0]), infos[1..], k);
      var info :| info in infos[1..] && info.requestType == k
        && TryAddAll(TryAdd(cache, infos[0]), infos[1..])[k] == EntryOf(info);
      assert info in infos;
    }
  }

  /** When every request type is already cached, the loop changes nothing. */
  lemma {:induction false} AllCachedIsNoop(cache: Cache, infos: seq<HandlerInfo>)
    requires RequestTypes(infos) <= cache.Keys
    ensures TryAddAll(cache, infos) == cache
    decreases infos
  {
    if infos != [] {
      assert infos[0].requestType in RequestTypes(infos);
      assert RequestTypes(infos[1..]) <= RequestTypes(infos) by {
        forall k | k in RequestTypes(infos[1..]) ensures k in RequestTypes(infos) {
          var info :| info in infos[1..] && info.requestType == k;
          assert info in infos;
        }
      }
      AllCachedIsNoop(TryAdd(cache, infos[0]), infos[1..]);
    }
  }

  /** Adding two runs of records in one loop is adding the first run, then the second. */
  lemma {:induction false} TryAddAllAppend(cache: Cache, xs: seq<HandlerInfo>, ys: seq<HandlerInfo>)
    ensures TryAddAll(cache, xs + ys) == TryAddAll(TryAddAll(cache, xs), ys)
    decreases xs
  {
    if xs == [] {
      assert xs + ys == ys;
    } else {
      TryAddAllAppend(TryAdd(cache, xs[0]), xs[1..], ys);
      assert (xs + ys)[0] == xs[0] && (xs + ys)[1..] == xs[1..] + ys;
    }
  }

  /** Loading the same records a second time leaves the cache as it was. */
  lemma TryAddAllIdempotent(cache: Cache, infos: seq<HandlerInfo>)
    ensures TryAddAll(TryAddAll(cache, infos), infos) == TryAddAll(cache, infos)
  {
    TryAddAllGrows(cache, infos);
    AllCachedIsNoop(TryAddAll(cache, infos), infos);
  }
}
