/**
 * The Duratile popup controller (`DuratilePopupSystem`).  The browser
 * around it is explicit: `localStorage` is a map of parsed entries, the
 * cookie jar a sequence of cookies, "an overlay element exists" a boolean,
 * scheduled display timers a sequence of their delays and the broadcast
 * channel an outbox of posted messages.  Time, `fetch`, timer expiry and
 * incoming broadcast or storage events are parameters or method calls made
 * by the environment.
 */
module PopupSystem {
  import opened Wrappers
  import opened Json
  import opened Cookies
  import opened PopupConfig
  import opened Strings

  /** `Date.now()`, `toLocaleString()` and `toISOString()` at the time of a call. */
  datatype Clock = Clock(now: int, localeText: string, isoText: string)

  /** The outcome of `fetch(configUrl)`: a network failure, or a status and a body. */
  datatype Fetch = NetworkError | Response(status: int, body: Stored)

  function AsNumber(c: Count): Number {
    if c.Int? then Finite(c.i as real) else Number.NaN
  }

  function CookieNameOf(config: Object): string
    requires Complete(config)
  {
    JsString(config["cookieName"])
  }

  /**
   * `checkAndShowPopup` schedules a display when the popup is enabled and
   * `count >= maxDisplays` is false; a NaN on either side makes that
   * comparison false.
   */
  predicate ShouldSchedule(config: Object, jar: seq<Cookie>)
    requires Complete(config)
  {
    Truthy(config["enabled"])
    && !AtLeast(AsNumber(PopupCount(jar, CookieNameOf(config))), ToNumber(config["maxDisplays"]))
  }

  /** The part of the browser a display touches. */
  datatype Page = Page(storage: map<string, Stored>, jar: seq<Cookie>, overlay: bool)

  /** `showPopup` goes past its guards and `toFixed(2)` on the price succeeds. */
  predicate CanShow(config: Object, page: Page)
    requires Complete(config)
  {
    !page.overlay && Truthy(config["enabled"]) && config["price"].Num?
  }

  /**
   * `showPopup`: unless an overlay exists, the popup is disabled or the
   * price is not a number, insert the overlay, write the incremented
   * counter cookie and advance the display statistics.
   */
  function Show(config: Object, page: Page): (after: Page)
    requires Complete(config)
    ensures WellFormedJar(page.jar) ==> WellFormedJar(after.jar)
  {
    if !CanShow(config, page) then page
    else
      var name := CookieNameOf(config);
      var count := Increment(PopupCount(page.jar, name));
      Page(page.storage[PriceKey := Json(Obj(DisplayStats(config, page.storage)))],
           AssignCookie(page.jar, CookieAssignment(name, CountText(count))),
           true)
  }

  /**
   * A display happens exactly when `CanShow` holds; it raises the counter of
   * a well-formed cookie name by exactly one (a NaN counter stays NaN) and
   * leaves every other counter alone.  Otherwise nothing changes.
   */
  lemma ShowCountsOnce(config: Object, page: Page, other: string)
    requires Complete(config) && WellFormedJar(page.jar)
    requires WellFormedName(CookieNameOf(config)) && WellFormedName(other)
    ensures !CanShow(config, page) ==> Show(config, page) == page
    ensures CanShow(config, page) ==>
      Show(config, page).overlay
      && PopupCount(Show(config, page).jar, CookieNameOf(config)) == Increment(PopupCount(page.jar, CookieNameOf(config)))
      && (other != CookieNameOf(config) ==> PopupCount(Show(config, page).jar, other) == PopupCount(page.jar, other))
  {
    if CanShow(config, page) {
      var name := CookieNameOf(config);
      WriteThenReadCount(page.jar, name, Increment(PopupCount(page.jar, name)), other);
    }
  }

  /**
   * `forceShowPopup`: remember the counter, write "0", show, then write the
   * remembered counter back.
   */
  function ForceShow(config: Object, page: Page): (after: Page)
    requires Complete(config)
    ensures WellFormedJar(page.jar) ==> WellFormedJar(after.jar)
  {
    var name := CookieNameOf(config);
    var original := PopupCount(page.jar, name);
    var shown := Show(config, page.(jar := AssignCookie(page.jar, CookieAssignment(name, "0"))));
    shown.(jar := AssignCookie(shown.jar, CookieAssignment(name, CountText(original))))
  }

  /**
   * A forced display ignores the counter limit but leaves the counter as it
   * was; the overlay appears whenever no overlay exists, the popup is
   * enabled and the price is a number.
   */
  lemma ForceShowKeepsCount(config: Object, page: Page)
    requires Complete(config) && WellFormedJar(page.jar) && WellFormedName(CookieNameOf(config))
    ensures PopupCount(ForceShow(config, page).jar, CookieNameOf(config)) == PopupCount(page.jar, CookieNameOf(config))
    ensures ForceShow(config, page).overlay <==> page.overlay || (Truthy(config["enabled"]) && config["price"].Num?)
  {
    var name := CookieNameOf(config);
    var shown := Show(config, page.(jar := AssignCookie(page.jar, CookieAssignment(name, "0"))));
    WriteThenReadCount(shown.jar, name, PopupCount(page.jar, name), name);
  }

  /** Which branch `loadGlobalConfiguration` takes. */
  datatype LoadPath = FromCache(cached: Value) | Fetched(doc: Value) | Fallback

  function ChooseLoadPath(storage: map<string, Stored>, lastFetched: int, now: int, fetch: Fetch): (path: LoadPath)
    ensures path.FromCache? ==> now - lastFetched < CacheTtl && CachedConfig(storage) == Some(path.cached) && Present(Some(path.cached))
    ensures path.Fetched? ==> fetch.Response? && 200 <= fetch.status < 300 && fetch.body == Json(path.doc)
    ensures path.Fetched? ==> ValidGlobalConfig(Some(path.doc))
    ensures Present(CachedConfig(storage)) && now - lastFetched < CacheTtl ==> path == FromCache(CachedConfig(storage).value)
    ensures (!(Present(CachedConfig(storage)) && now - lastFetched < CacheTtl) && fetch.Response? && 200 <= fetch.status < 300
             && fetch.body.Json? && ValidGlobalConfig(Some(fetch.body.value)))
            ==> path == Fetched(fetch.body.value)
  {
    var cached := CachedConfig(storage);
    if Present(cached) && now - lastFetched < CacheTtl then FromCache(cached.value)
    else match fetch
      case Response(status, Json(doc)) =>
        if 200 <= status < 300 && ValidGlobalConfig(Some(doc)) then Fetched(doc) else Fallback
      case _ => Fallback
  }

  /**
   * The configuration `loadGlobalConfiguration` leaves in memory: the
   * defaults with the whole cache entry spread over them, the merge of a
   * fetched valid document, or the defaults with the price data spread over
   * them.
   */
  function LoadedConfig(config: Object, storage: map<string, Stored>, path: LoadPath): (loaded: Object)
    requires Complete(config)
    requires path.Fetched? ==> ValidGlobalConfig(Some(path.doc))
    ensures Complete(loaded)
  {
    match path
    case FromCache(cached) => DefaultConfig() + Spread(Some(cached))
    case Fetched(doc) => MergeConfigurations(doc)
    case Fallback => DefaultConfig() + PriceData(config, StoredAt(storage, PriceKey))
  }

  /** The storage a load leaves: only a fetched document is written to the cache. */
  function StorageAfterLoad(storage: map<string, Stored>, path: LoadPath, now: int): map<string, Stored> {
    if path.Fetched? then storage[CacheKey := Json(CacheEnvelope(path.doc, now))] else storage
  }

  /** `configLastFetched` after a load: stamped only by a successful fetch. */
  function FetchedAtAfterLoad(lastFetched: int, path: LoadPath, now: int): int {
    if path.Fetched? then now else lastFetched
  }

  /** The messages posted by a load: a fetched document is broadcast when the channel is open. */
  function OutboxAfterLoad(outbox: seq<Value>, channelOpen: bool, path: LoadPath, now: int): seq<Value> {
    if path.Fetched? && channelOpen then outbox + [ConfigMessage(path.doc, now)] else outbox
  }

  /**
   * When the fetch fails or returns an invalid document, `enabled` and
   * `price` keep their in-memory values; a fetched document sets them
   * from its `popup` section.
   */
  lemma LoadedEnabledAndPrice(config: Object, storage: map<string, Stored>, path: LoadPath)
    requires Complete(config)
    requires path.Fetched? ==> ValidGlobalConfig(Some(path.doc))
    ensures path.Fallback? ==>
      LoadedConfig(config, storage, path)["enabled"] == config["enabled"]
      && LoadedConfig(config, storage, path)["price"] == config["price"]
    ensures path.Fetched? ==>
      LoadedConfig(config, storage, path)["enabled"] == PopupSection(path.doc)["enabled"]
      && LoadedConfig(config, storage, path)["price"] == PopupSection(path.doc)["price"]
  {
  }

  /**
   * The cache entry is the `{config, timestamp}` envelope, and the cached
   * branch spreads that envelope rather than the document inside it: a cache
   * hit on an entry `cacheConfig` wrote resets `enabled` and `price` to the
   * defaults, whatever the cached document says.
   */
  lemma CacheHitSpreadsEnvelope(config: Object, doc: Value, stamp: int)
    requires Complete(config)
    ensures LoadedConfig(config, map[], FromCache(CacheEnvelope(doc, stamp)))["enabled"] == Bool(true)
    ensures LoadedConfig(config, map[], FromCache(CacheEnvelope(doc, stamp)))["price"] == Num(70.0)
    ensures LoadedConfig(config, map[], FromCache(CacheEnvelope(doc, stamp)))["config"] == doc
  {
    var spread := Spread(Some(CacheEnvelope(doc, stamp)));
    assert spread == map["config" := doc, "timestamp" := Num(stamp as real)];
  }

  /**
   * `configLastFetched` starts at 0, so until a fetch succeeds the cache is
   * consulted only if the clock reads less than five minutes after the epoch.
   */
  lemma NoCacheBeforeFirstFetch(storage: map<string, Stored>, now: int, fetch: Fetch)
    requires now >= CacheTtl
    ensures !ChooseLoadPath(storage, 0, now, fetch).FromCache?
  {
  }

  /**
   * A first visit (no price record, no counter cookie) whose fetch fails
   * still schedules the popup, after the default two-second delay.
   */
  lemma FirstVisitSchedules(storage: map<string, Stored>, jar: seq<Cookie>)
    requires PriceKey !in storage
    requires WellFormedJar(jar) && Lookup(jar, "duratile_popup_count").None?
    ensures var loaded := LoadedConfig(DefaultConfig(), storage, Fallback);
      ShouldSchedule(loaded, jar) && loaded["popupDelay"] == Num(2000.0)
  {
    var loaded := LoadedConfig(DefaultConfig(), storage, Fallback);
    FallbackDefaults(storage);
    assert CookieNameOf(loaded) == "duratile_popup_count";
    CounterNameWellFormed();
    CookieValueIsLookup(jar, "duratile_popup_count");
    assert PopupCount(jar, CookieNameOf(loaded)) == Int(0);
  }

  /** With no price record, a failed load leaves the default display settings. */
  lemma FallbackDefaults(storage: map<string, Stored>)
    requires PriceKey !in storage
    ensures var loaded := LoadedConfig(DefaultConfig(), storage, Fallback);
      loaded["cookieName"] == Str("duratile_popup_count") && loaded["maxDisplays"] == Num(3.0)
      && loaded["enabled"] == Bool(true) && loaded["popupDelay"] == Num(2000.0)
  {
    assert StoredAt(storage, PriceKey) == None;
  }

  lemma CounterNameWellFormed()
    ensures WellFormedName("duratile_popup_count")
  {
  }

  /** `updateGlobalConfiguration` as a change of `localStorage`. */
  function CacheAfterAdmin(storage: map<string, Stored>, updates: Object, clock: Clock): map<string, Stored> {
    match AdminUpdate(CachedConfig(storage), updates, clock.isoText)
    case Rewritten(doc) => storage[CacheKey := Json(CacheEnvelope(doc, clock.now))]
    case _ => storage
  }

  /** The storage after an admin operation: the cache update, then `updateLocalStorage`. */
  function AdminStorage(storage: map<string, Stored>, config: Object, updates: Object, clock: Clock): map<string, Stored>
    requires Complete(config)
  {
    var cached := CacheAfterAdmin(storage, updates, clock);
    cached[PriceKey := Json(Obj(LocalRecord(config, cached, clock.localeText)))]
  }

  class DuratilePopupSystem {
    var config: Object
    var configLastFetched: int
    var isInitialized: bool
    /** `broadcastChannel !== null`. */
    var channelOpen: bool
    var storage: map<string, Stored>
    var jar: seq<Cookie>
    /** An element with id `duratile-popup` is in the document. */
    var overlay: bool
    /** Pending display timers, by delay. */
    var timers: seq<Value>
    /** Messages posted on the broadcast channel. */
    var outbox: seq<Value>

    predicate Valid()
      reads this
    {
      Complete(config) && WellFormedJar(jar)
    }

    /** The constructor: defaults in memory, nothing fetched yet, the browser's storage and cookies as found. */
    constructor(initialStorage: map<string, Stored>, initialJar: seq<Cookie>)
      requires WellFormedJar(initialJar)
      ensures Valid()
      ensures config == DefaultConfig() && configLastFetched == 0
      ensures !isInitialized && !channelOpen && !overlay
      ensures storage == initialStorage && jar == initialJar && timers == [] && outbox == []
    {
      config := DefaultConfig();
      configLastFetched := 0;
      isInitialized := false;
      channelOpen := false;
      storage := initialStorage;
      jar := initialJar;
      overlay := false;
      timers := [];
      outbox := [];
    }

    function CookieName(): string
      reads this
      requires Valid()
    {
      CookieNameOf(config)
    }

    /** `isPopupEnabled`, read as the truthiness its callers test. */
    predicate IsPopupEnabled()
      reads this
      requires Valid()
    {
      Truthy(config["enabled"])
    }

    function CurrentPage(): Page
      reads this
    {
      Page(storage, jar, overlay)
    }

    /** `isCacheValid`. */
    predicate IsCacheValid(now: int)
      reads this
    {
      now - configLastFetched < CacheTtl
    }

    /** `getCookie`: split `document.cookie` at ';', strip leading spaces, return the rest of the first `name=` entry. */
    method GetCookie(name: string) returns (value: Option<string>)
      ensures value == CookieValue(jar, name)
      ensures WellFormedJar(jar) && WellFormedName(name) ==> value == Lookup(jar, name)
    {
      var nameEq := name + "=";
      var entries := SplitOn(DocumentCookie(jar), ';');
      var i := 0;
      while i < |entries|
        invariant 0 <= i <= |entries|
        invariant FindCookie(entries, nameEq) == FindCookie(entries[i..], nameEq)
      {
        var c := entries[i];
        while |c| > 0 && c[0] == ' '
          invariant StripSpaces(c) == StripSpaces(entries[i])
          decreases |c|
        {
          c := c[1..];
        }
        assert entries[i..][1..] == entries[i + 1..];
        if StartsWith(c, nameEq) {
          value := Some(c[|nameEq|..]);
          if WellFormedJar(jar) && WellFormedName(name) {
            CookieValueIsLookup(jar, name);
          }
          return;
        }
        i := i + 1;
      }
      value := None;
      if WellFormedJar(jar) && WellFormedName(name) {
        CookieValueIsLookup(jar, name);
      }
    }

    /** `getPopupCount`: a missing or empty counter cookie is 0, anything else goes through `parseInt`. */
    method GetPopupCount() returns (count: Count)
      requires Valid()
      ensures count == PopupCount(jar, CookieName())
    {
      var value := GetCookie(CookieName());
      if value.Some? && value.value != "" {
        count := ParseInt(value.value);
      } else {
        count := Int(0);
      }
    }

    /** `setCookie(name, value, days)`. */
    method SetCookie(name: string, value: string)
      requires Valid()
      modifies this
      ensures Valid()
      ensures jar == AssignCookie(old(jar), CookieAssignment(name, value))
      ensures unchanged(this`config, this`configLastFetched, this`isInitialized, this`channelOpen)
      ensures unchanged(this`storage, this`overlay, this`timers, this`outbox)
    {
      jar := AssignCookie(jar, CookieAssignment(name, value));
    }

    /** `cacheConfig`: store the `{config, timestamp}` envelope. */
    method CacheConfig(doc: Value, now: int)
      modifies this
      ensures storage == old(storage)[CacheKey := Json(CacheEnvelope(doc, now))]
      ensures unchanged(this`config, this`configLastFetched, this`isInitialized, this`channelOpen)
      ensures unchanged(this`jar, this`overlay, this`timers, this`outbox)
    {
      storage := storage[CacheKey := Json(CacheEnvelope(doc, now))];
    }

    /** `broadcastConfigUpdate`: post only when a channel exists. */
    method BroadcastConfigUpdate(doc: Value, now: int)
      modifies this
      ensures outbox == old(outbox) + if channelOpen then [ConfigMessage(doc, now)] else []
      ensures unchanged(this`config, this`configLastFetched, this`isInitialized, this`channelOpen)
      ensures unchanged(this`storage, this`jar, this`overlay, this`timers)
    {
      if channelOpen {
        outbox := outbox + [ConfigMessage(doc, now)];
      }
    }

    /** `updateLocalStorage`. */
    method UpdateLocalStorage(clock: Clock)
      requires Valid()
      modifies this
      ensures Valid()
      ensures storage == old(storage)[PriceKey := Json(Obj(LocalRecord(config, old(storage), clock.localeText)))]
      ensures unchanged(this`config, this`configLastFetched, this`isInitialized, this`channelOpen)
      ensures unchanged(this`jar, this`overlay, this`timers, this`outbox)
    {
      storage := storage[PriceKey := Json(Obj(LocalRecord(config, storage, clock.localeText)))];
    }

    /** The success branch of `loadGlobalConfiguration`: merge, cache, stamp and broadcast a valid document. */
    method AdoptFetched(doc: Value, now: int)
      requires ValidGlobalConfig(Some(doc))
      modifies this
      ensures config == MergeConfigurations(doc)
      ensures storage == old(storage)[CacheKey := Json(CacheEnvelope(doc, now))]
      ensures configLastFetched == now
      ensures outbox == old(outbox) + if channelOpen then [ConfigMessage(doc, now)] else []
      ensures unchanged(this`isInitialized, this`channelOpen, this`jar, this`overlay, this`timers)
    {
      config := MergeConfigurations(doc);
      CacheConfig(doc, now);
      configLastFetched := now;
      BroadcastConfigUpdate(doc, now);
    }

    /** `loadGlobalConfiguration`, with the network response as a parameter. */
    method LoadGlobalConfiguration(clock: Clock, fetch: Fetch)
      requires Valid()
      modifies this
      ensures Valid()
      ensures config == LoadedConfig(old(config), old(storage), old(ChooseLoadPath(storage, configLastFetched, clock.now, fetch)))
      ensures old(ChooseLoadPath(storage, configLastFetched, clock.now, fetch)).Fetched? ==>
        var doc := old(ChooseLoadPath(storage, configLastFetched, clock.now, fetch)).doc;
        storage == old(storage)[CacheKey := Json(CacheEnvelope(doc, clock.now))]
        && configLastFetched == clock.now
        && outbox == old(outbox) + if channelOpen then [ConfigMessage(doc, clock.now)] else []
      ensures !(old(ChooseLoadPath(storage, configLastFetched, clock.now, fetch)).Fetched?) ==>
        unchanged(this`storage, this`configLastFetched, this`outbox)
      ensures storage == StorageAfterLoad(old(storage), old(ChooseLoadPath(storage, configLastFetched, clock.now, fetch)), clock.now)
      ensures configLastFetched == FetchedAtAfterLoad(old(configLastFetched), old(ChooseLoadPath(storage, configLastFetched, clock.now, fetch)), clock.now)
      ensures outbox == OutboxAfterLoad(old(outbox), channelOpen, old(ChooseLoadPath(storage, configLastFetched, clock.now, fetch)), clock.now)
      ensures unchanged(this`isInitialized, this`channelOpen, this`jar, this`overlay, this`timers)
    {
      ghost var path := ChooseLoadPath(storage, configLastFetched, clock.now, fetch);
      ghost var before := config;
      var cached := CachedConfig(storage);
      if Present(cached) && IsCacheValid(clock.now) {
        assert path == FromCache(cached.value);
        config := DefaultConfig() + Spread(cached);
        return;
      }
      if fetch.Response? && 200 <= fetch.status < 300 && fetch.body.Json? && ValidGlobalConfig(Some(fetch.body.value)) {
        var doc := fetch.body.value;
        assert path == Fetched(doc);
        AdoptFetched(doc, clock.now);
      } else {
        assert path == Fallback;
        var localData := PriceData(config, StoredAt(storage, PriceKey));
        config := DefaultConfig() + localData;
        assert config == LoadedConfig(before, storage, path);
      }
    }

    /** A `storage` event from another tab: reload when one of the two keys changed. */
    method OnStorageEvent(key: string, clock: Clock, fetch: Fetch)
      requires Valid()
      modifies this
      ensures Valid()
      ensures key != PriceKey && key != CacheKey ==> unchanged(this)
      ensures key == PriceKey || key == CacheKey ==>
        var path := old(ChooseLoadPath(storage, configLastFetched, clock.now, fetch));
        config == LoadedConfig(old(config), old(storage), path)
        && storage == StorageAfterLoad(old(storage), path, clock.now)
        && configLastFetched == FetchedAtAfterLoad(old(configLastFetched), path, clock.now)
        && outbox == OutboxAfterLoad(old(outbox), channelOpen, path, clock.now)
      ensures unchanged(this`isInitialized, this`channelOpen, this`jar, this`overlay, this`timers)
    {
      if key == PriceKey || key == CacheKey {
        LoadGlobalConfiguration(clock, fetch);
      }
    }

    /** `closePopup`: the overlay goes (its fade-out delay is not modelled). */
    method ClosePopup()
      modifies this
      ensures !overlay
      ensures unchanged(this`config, this`configLastFetched, this`isInitialized, this`channelOpen)
      ensures unchanged(this`storage, this`jar, this`timers, this`outbox)
    {
      overlay := false;
    }

    /**
     * `handleBroadcastMessage`: a `CONFIG_UPDATE` with a valid document
     * replaces the configuration by its merge, caches the document,
     * refreshes the price data and closes the popup if the result is
     * disabled; anything else changes nothing.
     */
    method HandleBroadcastMessage(data: Value, clock: Clock)
      requires Valid()
      modifies this
      ensures Valid()
      ensures !(Get(data, "type") == Some(Str("CONFIG_UPDATE")) && ValidGlobalConfig(Get(data, "config"))) ==>
        unchanged(this)
      ensures Get(data, "type") == Some(Str("CONFIG_UPDATE")) && ValidGlobalConfig(Get(data, "config")) ==>
        var doc := Get(data, "config").value;
        var cached := old(storage)[CacheKey := Json(CacheEnvelope(doc, clock.now))];
        config == MergeConfigurations(doc)
        && storage == cached[PriceKey := Json(Obj(LocalRecord(config, cached, clock.localeText)))]
        && overlay == (old(overlay) && config["enabled"] == Bool(true))
      ensures unchanged(this`configLastFetched, this`isInitialized, this`channelOpen)
      ensures unchanged(this`jar, this`timers, this`outbox)
    {
      if Get(data, "type") == Some(Str("CONFIG_UPDATE")) {
        var doc := Get(data, "config");
        if ValidGlobalConfig(doc) {
          config := MergeConfigurations(doc.value);
          CacheConfig(doc.value, clock.now);
          UpdateLocalStorage(clock);
          if !IsPopupEnabled() {
            ClosePopup();
          }
        }
      }
    }

    /** `updatePopupStats`. */
    method UpdatePopupStats()
      requires Valid()
      modifies this
      ensures Valid()
      ensures storage == old(storage)[PriceKey := Json(Obj(DisplayStats(config, old(storage))))]
      ensures unchanged(this`config, this`configLastFetched, this`isInitialized, this`channelOpen)
      ensures unchanged(this`jar, this`overlay, this`timers, this`outbox)
    {
      storage := storage[PriceKey := Json(Obj(DisplayStats(config, storage)))];
    }

    /** `incrementPopupCount`: read the counter, write it back plus one, advance the statistics. */
    method IncrementPopupCount() returns (newCount: Count)
      requires Valid()
      modifies this
      ensures Valid()
      ensures newCount == Increment(old(PopupCount(jar, CookieName())))
      ensures jar == AssignCookie(old(jar), CookieAssignment(CookieName(), CountText(newCount)))
      ensures WellFormedName(CookieName()) ==> PopupCount(jar, CookieName()) == newCount
      ensures storage == old(storage)[PriceKey := Json(Obj(DisplayStats(config, old(storage))))]
      ensures unchanged(this`config, this`configLastFetched, this`isInitialized, this`channelOpen)
      ensures unchanged(this`overlay, this`timers, this`outbox)
    {
      var currentCount := GetPopupCount();
      newCount := Increment(currentCount);
      SetCookie(CookieName(), CountText(newCount));
      UpdatePopupStats();
      if WellFormedName(CookieName()) {
        WriteThenReadCount(old(jar), CookieName(), newCount, CookieName());
      }
    }

    /** `showPopup`. */
    method ShowPopup()
      requires Valid()
      modifies this
      ensures Valid()
      ensures CurrentPage() == Show(config, old(CurrentPage()))
      ensures unchanged(this`config, this`configLastFetched, this`isInitialized, this`channelOpen)
      ensures unchanged(this`timers, this`outbox)
    {
      if overlay {
        return;
      }
      if !IsPopupEnabled() {
        return;
      }
      if !config["price"].Num? {
        // `this.config.price.toFixed(2)` throws; the handler swallows it.
        return;
      }
      overlay := true;
      var _ := IncrementPopupCount();
    }

    /** `checkAndShowPopup`: schedule one display timer, with the configured delay, when allowed. */
    method CheckAndShowPopup()
      requires Valid()
      modifies this
      ensures Valid()
      ensures timers == old(timers) + if ShouldSchedule(config, jar) then [config["popupDelay"]] else []
      ensures unchanged(this`config, this`configLastFetched, this`isInitialized, this`channelOpen)
      ensures unchanged(this`storage, this`jar, this`overlay, this`outbox)
    {
      if !IsPopupEnabled() {
        return;
      }
      var currentCount := GetPopupCount();
      if AtLeast(AsNumber(currentCount), ToNumber(config["maxDisplays"])) {
        return;
      }
      timers := timers + [config["popupDelay"]];
    }

    /** The display timer `i` fires: show only if the popup is still enabled. */
    method FireDisplayTimer(i: nat)
      requires Valid() && i < |timers|
      modifies this
      ensures Valid()
      ensures timers == old(timers[..i] + timers[i + 1..])
      ensures CurrentPage() == Show(config, old(CurrentPage()))
      ensures unchanged(this`config, this`configLastFetched, this`isInitialized, this`channelOpen, this`outbox)
    {
      timers := timers[..i] + timers[i + 1..];
      if IsPopupEnabled() {
        ShowPopup();
      }
    }

    /** `updateGlobalConfiguration`: rewrite the cached document; false when its change log cannot be spread. */
    method UpdateGlobalConfiguration(updates: Object, clock: Clock) returns (ok: bool)
      modifies this
      ensures ok <==> !AdminUpdate(old(CachedConfig(storage)), updates, clock.isoText).NotIterable?
      ensures storage == CacheAfterAdmin(old(storage), updates, clock)
      ensures unchanged(this`config, this`configLastFetched, this`isInitialized, this`channelOpen)
      ensures unchanged(this`jar, this`overlay, this`timers, this`outbox)
    {
      match AdminUpdate(CachedConfig(storage), updates, clock.isoText)
      case NoCache =>
        ok := true;
      case Rewritten(doc) =>
        CacheConfig(doc, clock.now);
        ok := true;
      case NotIterable =>
        ok := false;
    }

    /** `enablePopup`. */
    method EnablePopup(clock: Clock) returns (ok: bool)
      requires Valid()
      modifies this
      ensures Valid() && ok
      ensures config == old(config)["enabled" := Bool(true)]
      ensures storage == AdminStorage(old(storage), config, map["enabled" := Bool(true)], clock)
      ensures outbox == old(outbox) + if channelOpen then [ConfigMessage(Obj(map["popup" := Obj(config)]), clock.now)] else []
      ensures unchanged(this`configLastFetched, this`isInitialized, this`channelOpen)
      ensures unchanged(this`jar, this`overlay, this`timers)
    {
      config := config["enabled" := Bool(true)];
      var _ := UpdateGlobalConfiguration(map["enabled" := Bool(true)], clock);
      UpdateLocalStorage(clock);
      BroadcastConfigUpdate(Obj(map["popup" := Obj(config)]), clock.now);
      ok := true;
    }

    /** `disablePopup`: as `enablePopup`, and the popup is closed. */
    method DisablePopup(clock: Clock) returns (ok: bool)
      requires Valid()
      modifies this
      ensures Valid() && ok
      ensures config == old(config)["enabled" := Bool(false)]
      ensures storage == AdminStorage(old(storage), config, map["enabled" := Bool(false)], clock)
      ensures !overlay
      ensures outbox == old(outbox) + if channelOpen then [ConfigMessage(Obj(map["popup" := Obj(config)]), clock.now)] else []
      ensures unchanged(this`configLastFetched, this`isInitialized, this`channelOpen)
      ensures unchanged(this`jar, this`timers)
    {
      config := config["enabled" := Bool(false)];
      var _ := UpdateGlobalConfiguration(map["enabled" := Bool(false)], clock);
      UpdateLocalStorage(clock);
      ClosePopup();
      BroadcastConfigUpdate(Obj(map["popup" := Obj(config)]), clock.now);
      ok := true;
    }

    /** `togglePopup`: the enabled flag flips to the boolean opposite of its truthiness. */
    method TogglePopup(clock: Clock) returns (ok: bool)
      requires Valid()
      modifies this
      ensures Valid() && ok
      ensures config == old(config)["enabled" := Bool(!old(IsPopupEnabled()))]
      ensures storage == AdminStorage(old(storage), config, map["enabled" := Bool(!old(IsPopupEnabled()))], clock)
      ensures overlay == (old(overlay) && !old(IsPopupEnabled()))
      ensures outbox == old(outbox) + if channelOpen then [ConfigMessage(Obj(map["popup" := Obj(config)]), clock.now)] else []
      ensures unchanged(this`configLastFetched, this`isInitialized, this`channelOpen)
      ensures unchanged(this`jar, this`timers)
    {
      if IsPopupEnabled() {
        ok := DisablePopup(clock);
      } else {
        ok := EnablePopup(clock);
      }
    }

    /** `updatePrice`: a negative or non-number price is refused with no change at all. */
    method UpdatePrice(newPrice: Value, clock: Clock) returns (ok: bool)
      requires Valid()
      modifies this
      ensures Valid()
      ensures ok <==> newPrice.Num? && newPrice.n >= 0.0
      ensures !ok ==> unchanged(this)
      ensures ok ==>
        config == old(config)["price" := newPrice]
        && storage == AdminStorage(old(storage), config, map["price" := newPrice], clock)
        && outbox == old(outbox) + if channelOpen then [ConfigMessage(Obj(map["popup" := Obj(config)]), clock.now)] else []
      ensures unchanged(this`configLastFetched, this`isInitialized, this`channelOpen)
      ensures unchanged(this`jar, this`overlay, this`timers)
    {
      if !newPrice.Num? || newPrice.n < 0.0 {
        return false;
      }
      config := config["price" := newPrice];
      var _ := UpdateGlobalConfiguration(map["price" := newPrice], clock);
      UpdateLocalStorage(clock);
      BroadcastConfigUpdate(Obj(map["popup" := Obj(config)]), clock.now);
      ok := true;
    }

    /** `resetPopupCount`: write "0"; the counter then reads 0. */
    method ResetPopupCount() returns (ok: bool)
      requires Valid()
      modifies this
      ensures Valid() && ok
      ensures jar == AssignCookie(old(jar), CookieAssignment(CookieName(), "0"))
      ensures WellFormedName(CookieName()) ==> PopupCount(jar, CookieName()) == Int(0)
      ensures unchanged(this`config, this`configLastFetched, this`isInitialized, this`channelOpen)
      ensures unchanged(this`storage, this`overlay, this`timers, this`outbox)
    {
      SetCookie(CookieName(), "0");
      if WellFormedName(CookieName()) {
        assert CountText(Int(0)) == "0";
        WriteThenReadCount(old(jar), CookieName(), Int(0), CookieName());
      }
      ok := true;
    }

    /** `forceShowPopup`. */
    method ForceShowPopup()
      requires Valid()
      modifies this
      ensures Valid()
      ensures CurrentPage() == ForceShow(config, old(CurrentPage()))
      ensures unchanged(this`config, this`configLastFetched, this`isInitialized, this`channelOpen)
      ensures unchanged(this`timers, this`outbox)
    {
      var originalCount := GetPopupCount();
      SetCookie(CookieName(), "0");
      ShowPopup();
      SetCookie(CookieName(), CountText(originalCount));
    }

    /**
     * `safeInitialize`: with storage accessible, open the channel if the
     * browser has one, load the configuration, then run the display check.
     * `initializeDefaultData` writes only when the price data lacks
     * `enabled`, which `PriceData` never does, so it changes nothing.
     */
    method SafeInitialize(clock: Clock, storageAccessible: bool, channelSupported: bool, fetch: Fetch)
      requires Valid()
      modifies this
      ensures Valid()
      ensures !storageAccessible ==> unchanged(this)
      ensures storageAccessible ==>
        var path := old(ChooseLoadPath(storage, configLastFetched, clock.now, fetch));
        isInitialized && channelOpen == channelSupported
        && config == LoadedConfig(old(config), old(storage), path)
        && storage == StorageAfterLoad(old(storage), path, clock.now)
        && configLastFetched == FetchedAtAfterLoad(old(configLastFetched), path, clock.now)
        && outbox == OutboxAfterLoad(old(outbox), channelSupported, path, clock.now)
        && timers == old(timers) + if ShouldSchedule(config, jar) then [config["popupDelay"]] else []
      ensures unchanged(this`jar, this`overlay)
    {
      if !storageAccessible {
        return;
      }
      channelOpen := channelSupported;
      LoadGlobalConfiguration(clock, fetch);
      CheckAndShowPopup();
      isInitialized := true;
    }
  }
}
