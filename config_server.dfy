/**
 * The global configuration server (`global-config-server.js`): it serves
 * the configuration document at `/duratile-config.json` and `/config`,
 * merges POSTed or PUT updates into it with a bounded change log, and
 * reports its state at `/status`.  The file system, `JSON.parse`, the
 * clock and the `User-Agent` header are parameters.
 */
module GlobalConfigServer {
  import opened Wrappers
  import opened Json

  /** The configuration file on disk. */
  datatype FileState = Missing | OnDisk(contents: Stored) | Unreadable

  /** What the request handler does for a method and a path name. */
  datatype Route = Preflight | ReadConfig | UpdateConfig | MethodNotAllowed | ServerStatus | NotFound

  predicate IsConfigPath(path: string) {
    path == "/duratile-config.json" || path == "/config"
  }

  /**
   * The routing decision.  OPTIONS is answered before any path is looked at;
   * the two configuration paths accept GET, POST and PUT and refuse every
   * other method; `/status` accepts any method; every other path is not found.
   */
  function RouteOf(verb: string, path: string): (r: Route)
    ensures r == Preflight <==> verb == "OPTIONS"
    ensures r == ReadConfig <==> verb == "GET" && IsConfigPath(path)
    ensures r == UpdateConfig <==> (verb == "POST" || verb == "PUT") && IsConfigPath(path)
    ensures r == MethodNotAllowed <==>
      IsConfigPath(path) && verb != "OPTIONS" && verb != "GET" && verb != "POST" && verb != "PUT"
    ensures r == ServerStatus <==> verb != "OPTIONS" && path == "/status"
    ensures r == NotFound <==> verb != "OPTIONS" && !IsConfigPath(path) && path != "/status"
  {
    if verb == "OPTIONS" then Preflight
    else if IsConfigPath(path) then
      if verb == "GET" then ReadConfig
      else if verb == "POST" || verb == "PUT" then UpdateConfig
      else MethodNotAllowed
    else if path == "/status" then ServerStatus
    else NotFound
  }

  /** The document `loadConfig` falls back to, stamped with the current time. */
  function DefaultDocument(isoText: string): Value {
    Obj(map[
      "version" := Str("1.0.0"),
      "lastUpdated" := Str(isoText),
      "popup" := Obj(map[
        "enabled" := Bool(true),
        "price" := Num(70.0),
        "maxDisplays" := Num(3.0),
        "cookieExpireDays" := Num(30.0),
        "popupDelay" := Num(2000.0),
        "message" := Obj(map[
          "title" := Str("\U{1F389} Special Promotion!"),
          "subtitle" := Str("Promotion Sale, Duratile"),
          "cta" := Str("Contact us for Enquiry"),
          "buttonPrimary" := Str("Contact Us Now"),
          "buttonSecondary" := Str("Maybe Later")])]),
      "admin" := Obj(map["lastModifiedBy" := Str("system"), "changeLog" := Arr([])])])
  }

  /**
   * `loadConfig`: the parsed file; a missing, unreadable or unparseable file
   * gives the default document (enabled, price 70, at most 3 displays, an
   * empty change log).
   */
  function LoadConfig(file: FileState, isoText: string): (doc: Value)
    ensures file.OnDisk? && file.contents.Json? ==> doc == file.contents.value
    ensures !(file.OnDisk? && file.contents.Json?) ==>
      doc.Obj? && "popup" in doc.fields && doc.fields["popup"].Obj?
      && (var popup := doc.fields["popup"].fields;
          "enabled" in popup && popup["enabled"] == Bool(true)
          && "price" in popup && popup["price"] == Num(70.0)
          && "maxDisplays" in popup && popup["maxDisplays"] == Num(3.0))
      && "admin" in doc.fields && doc.fields["admin"].Obj?
      && "changeLog" in doc.fields["admin"].fields && doc.fields["admin"].fields["changeLog"] == Arr([])
  {
    match file
    case OnDisk(Json(v)) => v
    case _ => DefaultDocument(isoText)
  }

  /** `xs.slice(-10)`: the last ten elements, or all of them. */
  function LastTen<T>(xs: seq<T>): (r: seq<T>)
    ensures |r| == if |xs| < 10 then |xs| else 10
    ensures r == xs[|xs| - |r|..]
  {
    if |xs| <= 10 then xs else xs[|xs| - 10..]
  }

  /** Why an update is answered with 400. */
  datatype Failure =
    | BadJson     // `JSON.parse(body)` threw
    | TypeError   // a property read on null, or a change log that cannot be spread
    | SaveFailed  // `saveConfig` returned false

  /** The change-log entry an update appends. */
  function LogEntry(updates: Value, userAgent: Option<string>, isoText: string): Value {
    var source := if userAgent.Some? && userAgent.value != "" then userAgent.value else "unknown";
    Obj(map["timestamp" := Str(isoText), "action" := Str("api_update"), "changes" := updates, "source" := Str(source)])
  }

  /** The entries `[...(current.admin?.changeLog || [])]` spreads (empty when that throws). */
  function PreviousLog(current: Value): seq<Value> {
    match Iterate(Or(GetOpt(Get(current, "admin"), "changeLog"), Arr([])))
    case Some(entries) => entries
    case None => []
  }

  /** `{...currentPopup, ...updatePopup}`. */
  function MergedPopup(currentPopup: Object, updatePopup: Object): (popup: Object)
    ensures popup.Keys == currentPopup.Keys + updatePopup.Keys
    ensures forall k :: k in updatePopup ==> popup[k] == updatePopup[k]
    ensures forall k :: k in currentPopup && k !in updatePopup ==> popup[k] == currentPopup[k]
  {
    currentPopup + updatePopup
  }

  /**
   * `[...previous, entry].slice(-10)`: at most ten entries, the new one last,
   * preceded by the newest of the previous ones in their order.
   */
  function UpdatedLog(previous: seq<Value>, entry: Value): (log: seq<Value>)
    ensures 1 <= |log| <= 10 && |log| == if |previous| < 10 then |previous| + 1 else 10
    ensures log[|log| - 1] == entry
    ensures log[..|log| - 1] == previous[|previous| - (|log| - 1)..]
  {
    var all := previous + [entry];
    var log := LastTen(all);
    assert log[..|log| - 1] == all[|all| - |log|..|all| - 1];
    log
  }

  /** The `popup` section of the merged document. */
  function MergedPopupSection(current: Value, updates: Value): Value {
    Obj(MergedPopup(Spread(Get(current, "popup")), Spread(Get(updates, "popup"))))
  }

  /** The `admin` section of the merged document. */
  function MergedAdminSection(current: Value, updates: Value, previous: seq<Value>, userAgent: Option<string>, isoText: string): Value {
    Obj(Spread(Get(current, "admin"))
      ["lastModifiedBy" := Or(GetOpt(Get(updates, "admin"), "lastModifiedBy"), Str("api"))]
      ["changeLog" := Arr(UpdatedLog(previous, LogEntry(updates, userAgent, isoText)))])
  }

  /** The merged document, given the entries spread from the stored change log. */
  function MergedDocument(current: Value, updates: Value, previous: seq<Value>, userAgent: Option<string>, isoText: string): Object {
    Spread(Some(current))
      ["popup" := MergedPopupSection(current, updates)]
      ["admin" := MergedAdminSection(current, updates, previous, userAgent, isoText)]
  }

  /**
   * `PUT`/`POST` merge of an update into the stored document.  It throws a
   * TypeError exactly when the stored document or the updates are null, or
   * the stored change log is truthy but cannot be spread.
   */
  function MergeUpdate(current: Value, updates: Value, userAgent: Option<string>, isoText: string): (r: Result<Value, Failure>)
    ensures r.Failure? <==>
      current.Null? || updates.Null?
      || (Present(GetOpt(Get(current, "admin"), "changeLog"))
          && Iterate(GetOpt(Get(current, "admin"), "changeLog").value).None?)
    ensures r.Failure? ==> r.error == TypeError
    ensures r.Success? ==> r.value == Obj(MergedDocument(current, updates, PreviousLog(current), userAgent, isoText))
  {
    if current.Null? || updates.Null? then Failure(TypeError)
    else
      match Iterate(Or(GetOpt(Get(current, "admin"), "changeLog"), Arr([])))
      case None => Failure(TypeError)
      case Some(entries) => Success(Obj(MergedDocument(current, updates, entries, userAgent, isoText)))
  }

  lemma SetTwo(top: Object, popup: Value, admin: Value)
    ensures var doc := top["popup" := popup]["admin" := admin];
      doc.Keys == top.Keys + {"popup", "admin"}
      && forall k :: k in doc && k != "popup" && k != "admin" ==> doc[k] == top[k]
  {
  }

  /** Every top-level field other than `popup` and `admin` is the stored document's. */
  lemma MergeKeepsTopLevel(current: Value, updates: Value, previous: seq<Value>, userAgent: Option<string>, isoText: string)
    ensures var doc := MergedDocument(current, updates, previous, userAgent, isoText);
      doc.Keys == Spread(Some(current)).Keys + {"popup", "admin"}
      && forall k :: k in doc && k != "popup" && k != "admin" ==> doc[k] == Spread(Some(current))[k]
  {
    SetTwo(Spread(Some(current)), MergedPopupSection(current, updates),
           MergedAdminSection(current, updates, previous, userAgent, isoText));
  }

  /**
   * Keys of `updates.popup` override the stored popup keys, the others keep
   * their stored values; with no `updates.popup` the section is unchanged.
   */
  lemma MergePopupOverrides(current: Value, updates: Value, previous: seq<Value>, userAgent: Option<string>, isoText: string)
    ensures var doc := MergedDocument(current, updates, previous, userAgent, isoText);
      doc["popup"].Obj?
      && doc["popup"].fields == MergedPopup(Spread(Get(current, "popup")), Spread(Get(updates, "popup")))
      && (Get(updates, "popup").None? ==> doc["popup"].fields == Spread(Get(current, "popup")))
  {
    if Get(updates, "popup").None? {
      var currentPopup := Spread(Get(current, "popup"));
      assert currentPopup + map[] == currentPopup;
    }
  }

  /**
   * `admin.lastModifiedBy` is `updates.admin.lastModifiedBy` when truthy, else
   * "api"; the change log is the previous one with the new entry appended,
   * cut to its last ten.
   */
  lemma MergeAdmin(current: Value, updates: Value, previous: seq<Value>, userAgent: Option<string>, isoText: string)
    ensures var admin := MergedDocument(current, updates, previous, userAgent, isoText)["admin"];
      admin.Obj? && "lastModifiedBy" in admin.fields && "changeLog" in admin.fields
      && admin.fields["lastModifiedBy"] == Or(GetOpt(Get(updates, "admin"), "lastModifiedBy"), Str("api"))
      && admin.fields["changeLog"] == Arr(UpdatedLog(previous, LogEntry(updates, userAgent, isoText)))
  {
  }

  /** The answer to one request. */
  datatype Reply =
    | Reply(status: int, body: Option<Value>)   // `body == None`: an empty body
    | Failed(reason: Failure)                     // 400 with `{success: false, error: <message>}`
    | Crash                                       // an uncaught exception in the handler

  /** The `/status` document; properties the configuration lacks are omitted, as `JSON.stringify` omits undefined. */
  function StatusDocument(config: Value, isoText: string): Value {
    var base := map[
      "server" := Str("D'Romico Global Config Server"),
      "status" := Str("running"),
      "timestamp" := Str(isoText)];
    var withUpdated := if Get(config, "lastUpdated").Some? then base["configLastUpdated" := Get(config, "lastUpdated").value] else base;
    Obj(if Get(config, "version").Some? then withUpdated["version" := Get(config, "version").value] else withUpdated)
  }

  /** The request body as the `data` handler accumulates it. */
  function Concat(chunks: seq<string>): string {
    if chunks == [] then "" else Concat(chunks[..|chunks| - 1]) + chunks[|chunks| - 1]
  }

  datatype Outcome = Outcome(reply: Reply, file: FileState)

  /** `saveConfig`'s effect on the document: it is stamped with the save time. */
  function Stamped(doc: Object, isoText: string): Object {
    doc["lastUpdated" := Str(isoText)]
  }

  /**
   * The handling of one request.  `parse` is `JSON.parse`, `writeOk` whether
   * `writeFileSync` succeeds.
   */
  function Respond(file: FileState, verb: string, path: string, body: string, userAgent: Option<string>,
                   parse: string -> Stored, isoText: string, writeOk: bool): (out: Outcome)
    ensures verb == "OPTIONS" ==> out == Outcome(Reply(200, None), file)
    ensures RouteOf(verb, path) == ReadConfig ==> out == Outcome(Reply(200, Some(LoadConfig(file, isoText))), file)
    ensures RouteOf(verb, path) == MethodNotAllowed ==> out.reply.Reply? && out.reply.status == 405 && out.file == file
    ensures RouteOf(verb, path) == NotFound ==> out.reply.Reply? && out.reply.status == 404 && out.file == file
    ensures RouteOf(verb, path) == ServerStatus ==>
      out.file == file && (out.reply.Crash? <==> LoadConfig(file, isoText).Null?)
      && (out.reply.Reply? ==> out.reply.status == 200)
    ensures RouteOf(verb, path) == UpdateConfig && parse(body).Unparseable? ==> out == Outcome(Failed(BadJson), file)
    ensures RouteOf(verb, path) == UpdateConfig && !writeOk ==> out.reply.Failed? && out.file == file
    ensures RouteOf(verb, path) == UpdateConfig && parse(body).Json? ==>
      var merged := MergeUpdate(LoadConfig(file, isoText), parse(body).value, userAgent, isoText);
      (merged.Failure? ==> out == Outcome(Failed(TypeError), file))
      && (merged.Success? && !writeOk ==> out == Outcome(Failed(SaveFailed), file))
      && (merged.Success? && writeOk ==>
            var saved := Obj(Stamped(merged.value.fields, isoText));
            out == Outcome(Reply(200, Some(Obj(map[
                             "success" := Bool(true),
                             "message" := Str("Configuration updated successfully"),
                             "config" := saved]))),
                           OnDisk(Json(saved))))
    ensures out.reply.Failed? || out.reply.Crash? ==> out.file == file
    ensures out.file != file ==>
      RouteOf(verb, path) == UpdateConfig && writeOk && parse(body).Json?
      && MergeUpdate(LoadConfig(file, isoText), parse(body).value, userAgent, isoText).Success?
      && out.file == OnDisk(Json(Obj(Stamped(MergeUpdate(LoadConfig(file, isoText), parse(body).value, userAgent, isoText).value.fields, isoText))))
  {
    match RouteOf(verb, path)
    case Preflight => Outcome(Reply(200, None), file)
    case ReadConfig => Outcome(Reply(200, Some(LoadConfig(file, isoText))), file)
    case MethodNotAllowed => Outcome(Reply(405, Some(Obj(map["error" := Str("Method not allowed")]))), file)
    case NotFound => Outcome(Reply(404, Some(Obj(map["error" := Str("Not found")]))), file)
    case ServerStatus =>
      var config := LoadConfig(file, isoText);
      if config.Null? then Outcome(Crash, file) else Outcome(Reply(200, Some(StatusDocument(config, isoText))), file)
    case UpdateConfig =>
      match parse(body)
      case Unparseable => Outcome(Failed(BadJson), file)
      case Json(updates) =>
        match MergeUpdate(LoadConfig(file, isoText), updates, userAgent, isoText)
        case Failure(reason) => Outcome(Failed(reason), file)
        case Success(doc) =>
          if !writeOk then Outcome(Failed(SaveFailed), file)
          else
            var saved := Stamped(doc.fields, isoText);
            Outcome(Reply(200, Some(Obj(map[
                      "success" := Bool(true),
                      "message" := Str("Configuration updated successfully"),
                      "config" := Obj(saved)]))),
                    OnDisk(Json(Obj(saved))))
  }

  /** After a successful update, a GET serves exactly the document the update answered with. */
  lemma ReadAfterUpdate(file: FileState, verb: string, path: string, body: string, userAgent: Option<string>,
                        parse: string -> Stored, isoText: string, laterIso: string)
    requires RouteOf(verb, path) == UpdateConfig
    requires Respond(file, verb, path, body, userAgent, parse, isoText, true).reply.Reply?
    ensures var out := Respond(file, verb, path, body, userAgent, parse, isoText, true);
      out.reply.status == 200 && out.reply.body.Some? && out.reply.body.value.Obj?
      && "config" in out.reply.body.value.fields
      && Respond(out.file, "GET", path, "", None, parse, laterIso, true).reply
         == Reply(200, Some(out.reply.body.value.fields["config"]))
  {
    var updates := parse(body).value;
    var doc := MergeUpdate(LoadConfig(file, isoText), updates, userAgent, isoText).value;
    var saved := Obj(Stamped(doc.fields, isoText));
    var out := Respond(file, verb, path, body, userAgent, parse, isoText, true);
    assert out.file == OnDisk(Json(saved));
    assert out.reply.body == Some(Obj(map[
      "success" := Bool(true),
      "message" := Str("Configuration updated successfully"),
      "config" := saved]));
    assert RouteOf("GET", path) == ReadConfig;
    assert LoadConfig(out.file, laterIso) == saved;
  }

  class ConfigServer {
    var file: FileState

    constructor(initial: FileState)
      ensures file == initial
    {
      file := initial;
    }

    /** `saveConfig`: stamp the document, then write it; false when the write fails. */
    method SaveConfig(config: Object, isoText: string, writeOk: bool) returns (saved: Object, ok: bool)
      modifies this
      ensures saved == Stamped(config, isoText) && "lastUpdated" in saved && saved["lastUpdated"] == Str(isoText)
      ensures ok == writeOk
      ensures file == if writeOk then OnDisk(Json(Obj(saved))) else old(file)
    {
      saved := config["lastUpdated" := Str(isoText)];
      if writeOk {
        file := OnDisk(Json(Obj(saved)));
        ok := true;
      } else {
        ok := false;
      }
    }

    /** The request handler; the body arrives as a sequence of chunks. */
    method HandleRequest(verb: string, path: string, chunks: seq<string>, userAgent: Option<string>,
                         parse: string -> Stored, isoText: string, writeOk: bool) returns (reply: Reply)
      modifies this
      ensures Outcome(reply, file) == Respond(old(file), verb, path, Concat(chunks), userAgent, parse, isoText, writeOk)
    {
      if verb == "OPTIONS" {
        return Reply(200, None);
      }
      if IsConfigPath(path) {
        if verb == "GET" {
          reply := Reply(200, Some(LoadConfig(file, isoText)));
        } else if verb == "POST" || verb == "PUT" {
          var body := "";
          var i := 0;
          while i < |chunks|
            invariant 0 <= i <= |chunks|
            invariant body == Concat(chunks[..i])
          {
            assert chunks[..i + 1][..i] == chunks[..i];
            body := body + chunks[i];
            i := i + 1;
          }
          assert chunks[..|chunks|] == chunks;
          match parse(body)
          case Unparseable =>
            reply := Failed(BadJson);
          case Json(updates) =>
            var currentConfig := LoadConfig(file, isoText);
            match MergeUpdate(currentConfig, updates, userAgent, isoText)
            case Failure(reason) =>
              reply := Failed(reason);
            case Success(updatedConfig) =>
              var saved, ok := SaveConfig(updatedConfig.fields, isoText, writeOk);
              if ok {
                reply := Reply(200, Some(Obj(map[
                  "success" := Bool(true),
                  "message" := Str("Configuration updated successfully"),
                  "config" := Obj(saved)])));
              } else {
                reply := Failed(SaveFailed);
              }
        } else {
          reply := Reply(405, Some(Obj(map["error" := Str("Method not allowed")])));
        }
      } else if path == "/status" {
        var config := LoadConfig(file, isoText);
        if config.Null? {
          reply := Crash;
        } else {
          reply := Reply(200, Some(StatusDocument(config, isoText)));
        }
      } else {
        reply := Reply(404, Some(Obj(map["error" := Str("Not found")])));
      }
    }
  }
}
