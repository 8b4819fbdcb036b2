/**
 * The pure part of the Duratile popup controller: the built-in defaults,
 * validation of a global configuration document, its merge onto the
 * defaults, the price-data record kept in `localStorage`, and the document
 * an admin operation writes into the configuration cache.
 */
module PopupConfig {
  import opened Wrappers
  import opened Json

  /** `localStorage` key of the price-data record. */
  const PriceKey: string := "duratile_price_data"
  /** `localStorage` key of the configuration cache. */
  const CacheKey: string := "duratile_config_cache"
  /** How long, in milliseconds, a fetched configuration stays fresh. */
  const CacheTtl: int := 300000

  function DefaultConfig(): (d: Object)
    ensures d.Keys == {"cookieName", "cookieExpireDays", "maxDisplays", "popupDelay", "enabled", "price"}
  {
    map[
      "cookieName" := Str("duratile_popup_count"),
      "cookieExpireDays" := Num(30.0),
      "maxDisplays" := Num(3.0),
      "popupDelay" := Num(2000.0),
      "enabled" := Bool(true),
      "price" := Num(70.0)]
  }

  /** The configuration object always carries every default key. */
  predicate Complete(config: Object) {
    DefaultConfig().Keys <= config.Keys
  }

  /**
   * `validateGlobalConfig`: the document is accepted exactly when it is an
   * object whose `popup` is an object with a boolean `enabled` and a number
   * `price` of at least 0.
   */
  function ValidGlobalConfig(doc: Option<Value>): (ok: bool)
    ensures ok <==>
      doc.Some? && doc.value.Obj? && "popup" in doc.value.fields
      && doc.value.fields["popup"].Obj?
      && "enabled" in doc.value.fields["popup"].fields
      && doc.value.fields["popup"].fields["enabled"].Bool?
      && "price" in doc.value.fields["popup"].fields
      && doc.value.fields["popup"].fields["price"].Num?
      && doc.value.fields["popup"].fields["price"].n >= 0.0
  {
    var popup := GetOpt(doc, "popup");
    var price := GetOpt(popup, "price");
    Present(doc) && Present(popup)
    && TypeOf(GetOpt(popup, "enabled")) == "boolean"
    && TypeOf(price) == "number" && price.value.n >= 0.0
  }

  /** The `popup` section of a validated document. */
  function PopupSection(doc: Value): Object
    requires ValidGlobalConfig(Some(doc))
  {
    doc.fields["popup"].fields
  }

  /** `section.key || fallback`, the value a merged key takes. */
  predicate TakesOrDefault(merged: Object, section: Object, key: string)
    requires key in merged && key in DefaultConfig()
  {
    merged[key] == if key in section && Truthy(section[key]) then section[key] else DefaultConfig()[key]
  }

  /**
   * `mergeConfigurations`: `enabled` and `price` come from the document as
   * they are; the four tuning keys come from it only when truthy, so a
   * `popupDelay` or `maxDisplays` of 0 falls back to the default.
   */
  function MergeConfigurations(doc: Value): (merged: Object)
    requires ValidGlobalConfig(Some(doc))
    ensures merged.Keys == DefaultConfig().Keys
    ensures merged["enabled"] == PopupSection(doc)["enabled"] && merged["enabled"].Bool?
    ensures merged["price"] == PopupSection(doc)["price"] && merged["price"].Num? && merged["price"].n >= 0.0
    ensures TakesOrDefault(merged, PopupSection(doc), "maxDisplays")
    ensures TakesOrDefault(merged, PopupSection(doc), "cookieExpireDays")
    ensures TakesOrDefault(merged, PopupSection(doc), "popupDelay")
    ensures TakesOrDefault(merged, PopupSection(doc), "cookieName")
  {
    var popup := GetOpt(Some(doc), "popup");
    var defaults := DefaultConfig();
    defaults
      ["enabled" := GetOpt(popup, "enabled").value]
      ["price" := GetOpt(popup, "price").value]
      ["maxDisplays" := Or(GetOpt(popup, "maxDisplays"), defaults["maxDisplays"])]
      ["cookieExpireDays" := Or(GetOpt(popup, "cookieExpireDays"), defaults["cookieExpireDays"])]
      ["popupDelay" := Or(GetOpt(popup, "popupDelay"), defaults["popupDelay"])]
      ["cookieName" := Or(GetOpt(popup, "cookieName"), defaults["cookieName"])]
  }

  function StoredAt(storage: map<string, Stored>, key: string): Option<Stored> {
    if key in storage then Some(storage[key]) else None
  }

  /** `getCachedConfig`: the parsed cache entry; `None` when it is missing or does not parse. */
  function CachedConfig(storage: map<string, Stored>): (cached: Option<Value>)
    ensures cached.Some? <==> CacheKey in storage && storage[CacheKey].Json?
  {
    match StoredAt(storage, CacheKey)
    case Some(Json(v)) => Some(v)
    case _ => None
  }

  /**
   * `getPriceData`: the stored record spread over a default record, with
   * `enabled` and `price` always taken from the in-memory configuration; a
   * record that does not parse gives the default record.  A missing record
   * (or an empty string, which reads the same) spreads nothing.
   */
  function PriceData(config: Object, stored: Option<Stored>): (data: Object)
    requires "enabled" in config && "price" in config
    ensures "enabled" in data && data["enabled"] == config["enabled"]
    ensures "price" in data && data["price"] == config["price"]
    ensures "lastUpdated" in data && "popupDisplayCount" in data
    ensures forall k :: k in data && k !in {"price", "lastUpdated", "popupDisplayCount", "enabled"} ==>
      stored.Some? && stored.value.Json? && k in Spread(Some(stored.value.value))
      && data[k] == Spread(Some(stored.value.value))[k]
    ensures stored.Some? && stored.value.Json? ==>
      forall k :: k in Spread(Some(stored.value.value)) && k != "enabled" && k != "price" ==>
        k in data && data[k] == Spread(Some(stored.value.value))[k]
  {
    var defaultData := map[
      "price" := config["price"],
      "lastUpdated" := Null,
      "popupDisplayCount" := Num(0.0),
      "enabled" := config["enabled"]];
    match stored
    case None => defaultData["enabled" := config["enabled"]]["price" := config["price"]]
    case Some(Unparseable) => defaultData
    case Some(Json(local)) => (defaultData + Spread(Some(local)))["enabled" := config["enabled"]]["price" := config["price"]]
  }

  /** `updatePopupStats`: the price-data record with its display counter advanced by `(n || 0) + 1`. */
  function DisplayStats(config: Object, storage: map<string, Stored>): (record: Object)
    requires "enabled" in config && "price" in config
    ensures "popupDisplayCount" in record
    ensures record["popupDisplayCount"] == PlusOne(PriceData(config, StoredAt(storage, PriceKey))["popupDisplayCount"])
    ensures forall k :: k in record && k != "popupDisplayCount" ==>
      k in PriceData(config, StoredAt(storage, PriceKey)) && record[k] == PriceData(config, StoredAt(storage, PriceKey))[k]
  {
    var data := PriceData(config, StoredAt(storage, PriceKey));
    data["popupDisplayCount" := PlusOne(Or(Some(data["popupDisplayCount"]), Num(0.0)))]
  }

  /** The envelope `cacheConfig` stores: `{config, timestamp}`. */
  function CacheEnvelope(doc: Value, now: int): Value {
    Obj(map["config" := doc, "timestamp" := Num(now as real)])
  }

  /** The message `broadcastConfigUpdate` posts to the other tabs. */
  function ConfigMessage(doc: Value, now: int): Value {
    Obj(map["type" := Str("CONFIG_UPDATE"), "config" := doc, "timestamp" := Num(now as real)])
  }

  /** `updateLocalStorage`: the price-data record with the current state and a fresh time stamp. */
  function LocalRecord(config: Object, storage: map<string, Stored>, localeText: string): (record: Object)
    requires "enabled" in config && "price" in config
    ensures "enabled" in record && record["enabled"] == config["enabled"]
    ensures "price" in record && record["price"] == config["price"]
    ensures "lastUpdated" in record && record["lastUpdated"] == Str(localeText)
    ensures record.Keys == PriceData(config, StoredAt(storage, PriceKey)).Keys
    ensures forall k :: k in record && k !in {"enabled", "price", "lastUpdated"} ==>
      record[k] == PriceData(config, StoredAt(storage, PriceKey))[k]
  {
    PriceData(config, StoredAt(storage, PriceKey))
      ["enabled" := config["enabled"]]
      ["price" := config["price"]]
      ["lastUpdated" := Str(localeText)]
  }

  /** `{...popup, ...updates, lastUpdated}`: the popup section an admin update writes. */
  function StampedPopup(oldPopup: Object, updates: Object, isoText: string): (popup: Object)
    ensures popup.Keys == oldPopup.Keys + updates.Keys + {"lastUpdated"}
    ensures forall k :: k in updates && k != "lastUpdated" ==> popup[k] == updates[k]
    ensures forall k :: k in oldPopup && k !in updates && k != "lastUpdated" ==> popup[k] == oldPopup[k]
    ensures popup["lastUpdated"] == Str(isoText)
  {
    (oldPopup + updates)["lastUpdated" := Str(isoText)]
  }

  /** `{...admin, lastModifiedBy: "admin", changeLog: [...entries, entry]}`. */
  function AdminSection(oldAdmin: Object, entries: seq<Value>, entry: Value): (admin: Object)
    ensures admin.Keys == oldAdmin.Keys + {"lastModifiedBy", "changeLog"}
    ensures forall k :: k in oldAdmin && k != "lastModifiedBy" && k != "changeLog" ==> admin[k] == oldAdmin[k]
    ensures admin["lastModifiedBy"] == Str("admin")
    ensures admin["changeLog"].Arr? && |admin["changeLog"].items| == |entries| + 1
    ensures admin["changeLog"].items[|entries|] == entry && admin["changeLog"].items[..|entries|] == entries
  {
    var log := entries + [entry];
    assert log[..|entries|] == entries;
    oldAdmin["lastModifiedBy" := Str("admin")]["changeLog" := Arr(log)]
  }

  /** What `updateGlobalConfiguration` does to the cache. */
  datatype CacheUpdate =
    | NoCache             // no cached document: nothing is written
    | Rewritten(doc: Value)
    | NotIterable         // the old change log cannot be spread: a TypeError, nothing is written

  /**
   * `updateGlobalConfiguration(updates)`: the cached document with `updates`
   * spread into its `popup` section, the section stamped, `admin` marked as
   * modified by "admin" and one entry appended to its change log.
   */
  function AdminUpdate(cached: Option<Value>, updates: Object, isoText: string): (r: CacheUpdate)
    ensures r.NoCache? <==> !(Present(cached) && Present(GetOpt(cached, "config")))
    ensures r.NotIterable? <==>
      Present(cached) && Present(GetOpt(cached, "config"))
      && Present(GetOpt(GetOpt(GetOpt(cached, "config"), "admin"), "changeLog"))
      && Iterate(GetOpt(GetOpt(GetOpt(cached, "config"), "admin"), "changeLog").value).None?
    ensures r.Rewritten? ==>
      var before := GetOpt(cached, "config");
      r.doc.Obj? && r.doc.fields.Keys == Spread(before).Keys + {"popup", "admin"}
      && (forall k :: k in Spread(before) && k != "popup" && k != "admin" ==> r.doc.fields[k] == Spread(before)[k])
      && r.doc.fields["popup"].Obj? && r.doc.fields["admin"].Obj?
    ensures r.Rewritten? ==>
      var oldPopup := Spread(GetOpt(GetOpt(cached, "config"), "popup"));
      r.doc.Obj? && "popup" in r.doc.fields && r.doc.fields["popup"].Obj?
      && var popup := r.doc.fields["popup"].fields;
         popup.Keys == oldPopup.Keys + updates.Keys + {"lastUpdated"}
         && (forall k :: k in updates && k != "lastUpdated" ==> popup[k] == updates[k])
         && (forall k :: k in oldPopup && k !in updates && k != "lastUpdated" ==> popup[k] == oldPopup[k])
         && popup["lastUpdated"] == Str(isoText)
    ensures r.Rewritten? ==>
      var oldAdmin := GetOpt(GetOpt(cached, "config"), "admin");
      var oldLog := GetOpt(oldAdmin, "changeLog");
      r.doc.Obj? && "admin" in r.doc.fields && r.doc.fields["admin"].Obj?
      && var admin := r.doc.fields["admin"].fields;
         admin.Keys == Spread(oldAdmin).Keys + {"lastModifiedBy", "changeLog"}
         && (forall k :: k in Spread(oldAdmin) && k != "lastModifiedBy" && k != "changeLog" ==> admin[k] == Spread(oldAdmin)[k])
         && admin["lastModifiedBy"] == Str("admin")
         && admin["changeLog"].Arr?
         && var log := admin["changeLog"].items;
            |log| >= 1
            && log[|log| - 1] == Obj(map["timestamp" := Str(isoText), "action" := Str("update"), "changes" := Obj(updates)])
            && (if Present(oldLog) then Iterate(oldLog.value) == Some(log[..|log| - 1]) else log[..|log| - 1] == [])
  {
    if !(Present(cached) && Present(GetOpt(cached, "config"))) then NoCache
    else
      var doc := GetOpt(cached, "config");
      var admin := GetOpt(doc, "admin");
      match Iterate(Or(GetOpt(admin, "changeLog"), Arr([])))
      case None => NotIterable
      case Some(entries) =>
        assert !Present(GetOpt(admin, "changeLog")) ==> entries == [];
        var entry := Obj(map["timestamp" := Str(isoText), "action" := Str("update"), "changes" := Obj(updates)]);
        var popup := StampedPopup(Spread(GetOpt(doc, "popup")), updates, isoText);
        var adminFields := AdminSection(Spread(admin), entries, entry);
        var top := Spread(doc)["popup" := Obj(popup)]["admin" := Obj(adminFields)];
        assert top.Keys == Spread(doc).Keys + {"popup", "admin"};
        Rewritten(Obj(top))
  }
}
