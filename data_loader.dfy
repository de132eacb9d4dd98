/**
 * The client-side loader: it shows a cached entry at once, then replaces it
 * with the live result, or falls back to the cache when the live call
 * fails. Its state is what it renders (`data`, `isLoading`, `fromCache`);
 * a `mounted` flag, cleared when the component goes away, stops every
 * later update.
 */
module DataLoader {
  import opened Optional
  import opened Cache
  import opened Api

  /** What the loader renders. */
  datatype Shown<T> = Shown(data: Option<T>, isLoading: bool, fromCache: bool)

  /** Before anything is known: no data, loading, not from the cache. */
  function Initial<T>(): Shown<T> {
    Shown(None, true, false)
  }

  /** Step one: a cached entry is shown at once and loading ends. */
  function ShowCached<T>(s: Shown<T>, cached: Option<Entry<T>>): Shown<T> {
    if cached.Some? then Shown(Some(cached.value.data), false, true) else s
  }

  /** Step two, once the live call settles: its result is shown; on failure
      the cache, read again, is shown if it has an entry. Loading ends. */
  function Settled<T>(s: Shown<T>, result: Outcome<T>, cachedAgain: Option<Entry<T>>): Shown<T> {
    match result
    case Returned(v) => Shown(Some(v), false, false)
    case Threw(_) =>
      if cachedAgain.Some? then Shown(Some(cachedAgain.value.data), false, true)
      else s.(isLoading := false)
  }

  /** The whole effect from the initial state. */
  function Run<T>(cached: Option<Entry<T>>, result: Outcome<T>, cachedAgain: Option<Entry<T>>): Shown<T> {
    Settled(ShowCached(Initial(), cached), result, cachedAgain)
  }

  /** Every run ends with loading finished; the live result, when there is
      one, is what is shown and it is not marked as cached. */
  lemma RunSettles<T>(cached: Option<Entry<T>>, result: Outcome<T>, cachedAgain: Option<Entry<T>>)
    ensures !Run(cached, result, cachedAgain).isLoading
    ensures result.Returned? ==> Run(cached, result, cachedAgain) == Shown(Some(result.value), false, false)
  {
  }

  /** The cache marker is on exactly when the live call failed and some read
      of the cache found an entry, and then the data shown is that entry's. */
  lemma FromCacheIffFallback<T>(cached: Option<Entry<T>>, result: Outcome<T>, cachedAgain: Option<Entry<T>>)
    ensures Run(cached, result, cachedAgain).fromCache <==> result.Threw? && (cached.Some? || cachedAgain.Some?)
    ensures Run(cached, result, cachedAgain).fromCache ==>
      Run(cached, result, cachedAgain).data == Some((if cachedAgain.Some? then cachedAgain else cached).value.data)
  {
  }

  /** Nothing is shown at the end exactly when the live call failed and
      neither read of the cache found an entry. */
  lemma EmptyIffNothingAnywhere<T>(cached: Option<Entry<T>>, result: Outcome<T>, cachedAgain: Option<Entry<T>>)
    ensures Run(cached, result, cachedAgain).data.None? <==> result.Threw? && cached.None? && cachedAgain.None?
  {
  }

  /** When the loader's call is one of the cached read wrappers, a failed
      live attempt with an entry present comes back as an ordinary result:
      the stale data is shown without the cache marker. */
  lemma WrapperFallbackLooksLive<T>(entry: Entry<T>, remote: Remote<T>, failure: string, cachedAgain: Option<Entry<T>>)
    requires !remote.Ok?
    ensures var end := Run(Some(entry), ReadRule(Some(entry), remote, failure), cachedAgain);
      end.data == Some(entry.data) && !end.fromCache
  {
  }

  /** The loader component, whose state the effect updates step by step. */
  class Loader<T> {
    var data: Option<T>
    var isLoading: bool
    var fromCache: bool
    var mounted: bool

    function State(): Shown<T>
      reads this
    {
      Shown(data, isLoading, fromCache)
    }

    constructor ()
      ensures State() == Initial() && mounted
    {
      data := None;
      isLoading := true;
      fromCache := false;
      mounted := true;
    }

    /** Step one: read the cache and show an entry while still mounted. */
    method ShowCachedStep(store: CacheStore<T>, key: string)
      modifies this
      ensures mounted == old(mounted)
      ensures State() == if mounted then ShowCached(old(State()), Lookup(store.slots, key)) else old(State())
    {
      var cached := store.Get(key);
      if cached.Some? {
        if mounted {
          data := Some(cached.value.data);
          fromCache := true;
          isLoading := false;
        }
      }
    }

    /** Step two: apply the live result, or on failure read the cache again;
        nothing changes once unmounted. */
    method SettleStep(store: CacheStore<T>, key: string, result: Outcome<T>)
      modifies this
      ensures mounted == old(mounted)
      ensures State() == if mounted then Settled(old(State()), result, Lookup(store.slots, key)) else old(State())
    {
      match result
      case Returned(v) =>
        if mounted {
          data := Some(v);
          fromCache := false;
          isLoading := false;
        }
      case Threw(_) =>
        var cached := store.Get(key);
        if mounted {
          if cached.Some? {
            data := Some(cached.value.data);
            fromCache := true;
          }
          isLoading := false;
        }
    }

    /** The effect's cleanup: later steps no longer update the state. */
    method Unmount()
      modifies this
      ensures !mounted && State() == old(State())
    {
      mounted := false;
    }
  }
}
