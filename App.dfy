/**
 * The `KeePass4Web` namespace of app.js: the shared restart flag of the
 * session timer, the browser storage that holds the CSRF token and the
 * settings, the defaults every AJAX call fills in, the login route chosen
 * when the server answers "not authenticated", and the generic error handler.
 */
module KeePass4Web {
  import opened Wrappers

  /** A parsed JSON value, as `responseJSON` and the stored settings hold them. */
  datatype Json =
    | JNull
    | JBool(b: bool)
    | JNum(n: int)
    | JStr(s: string)
    | JArray(items: seq<Json>)
    | JObject(fields: map<string, Json>)

  /** JavaScript truthiness of a value that may be `undefined` (None). */
  predicate Truthy(v: Option<Json>) {
    match v
    case None => false
    case Some(JNull) => false
    case Some(JBool(b)) => b
    case Some(JNum(n)) => n != 0
    case Some(JStr(s)) => s != ""
    case Some(_) => true
  }

  /** `undefined` or `null`: reading a property of one throws a TypeError. */
  predicate Nullish(v: Option<Json>) {
    v.None? || v == Some(JNull)
  }

  /** The property read `v[key]` on a value that is not nullish. */
  function Get(v: Json, key: string): (r: Option<Json>)
    ensures r.Some? <==> v.JObject? && key in v.fields
    ensures r.Some? ==> r.value == v.fields[key]
  {
    if v.JObject? && key in v.fields then Some(v.fields[key]) else None
  }

  // ---------------------------------------------------------------------------
  // The restart flag (`KeePass4Web.timer` and its accessor `restartTimer`)
  // ---------------------------------------------------------------------------

  /**
   * The process-wide one-shot flag asking the session timer to start over.
   * The same object is handed to the timer as its `restart` property.
   */
  class RestartCell {
    var timer: bool

    /** The flag starts cleared. */
    constructor ()
      ensures !timer
    {
      timer := false;
    }

    /** `restartTimer(val)`: with no argument a pure read, otherwise a write that returns the new value. */
    method RestartTimer(val: Option<bool>) returns (r: bool)
      modifies this
      ensures val.None? ==> timer == old(timer)
      ensures val.Some? ==> timer == val.value
      ensures r == timer
    {
      if val.Some? {
        timer := val.value;
      }
      r := timer;
    }
  }

  // ---------------------------------------------------------------------------
  // Browser storage
  // ---------------------------------------------------------------------------

  /**
   * A stored item. Storage holds text; the settings entry is the JSON text of
   * an object, kept here as the object it parses back to.
   */
  datatype Item = Text(text: string) | Object(fields: map<string, Json>)

  type Store = map<string, Item>

  const SettingsKey: string := "settings"
  const TokenKey: string := "CSRFToken"

  /** The settings entry holds an object and the token entry holds text. */
  predicate WellFormed(store: Store) {
    && (SettingsKey in store ==> store[SettingsKey].Object?)
    && (TokenKey in store ==> store[TokenKey].Text?)
  }

  /** `getSettings()`: the stored settings object, or `{}` when nothing is stored. */
  function GetSettings(store: Store): (r: map<string, Json>)
    requires WellFormed(store)
    ensures SettingsKey !in store ==> r == map[]
    ensures SettingsKey in store ==> store[SettingsKey] == Object(r)
  {
    if SettingsKey in store then store[SettingsKey].fields else map[]
  }

  /** `getCSRFToken()`: the stored token, or null (None) when it is missing or empty. */
  function GetCSRFToken(store: Store): (r: Option<string>)
    requires WellFormed(store)
    ensures r.None? <==> TokenKey !in store || store[TokenKey] == Text("")
    ensures r.Some? ==> r.value != "" && store[TokenKey] == Text(r.value)
  {
    if TokenKey in store && store[TokenKey].text != "" then Some(store[TokenKey].text) else None
  }

  /** The store after `setCSRFToken(token)`: a falsy token is stored as the empty text. */
  function WithCSRFToken(store: Store, token: Option<string>): (r: Store)
    requires WellFormed(store)
    ensures WellFormed(r)
    ensures GetCSRFToken(r) == if token.Some? && token.value != "" then token else None
    ensures GetSettings(r) == GetSettings(store)
    ensures r.Keys == store.Keys + {TokenKey}
    ensures forall k :: k in store && k != TokenKey ==> r[k] == store[k]
  {
    store[TokenKey := Text(if token.Some? then token.value else "")]
  }

  /** The store after `clearStorage()`: exactly the settings and the token are gone. */
  function WithoutSession(store: Store): (r: Store)
    ensures r.Keys == store.Keys - {SettingsKey, TokenKey}
    ensures forall k :: k in r ==> r[k] == store[k]
    ensures WellFormed(store) ==> WellFormed(r) && GetSettings(r) == map[] && GetCSRFToken(r).None?
  {
    store - {SettingsKey, TokenKey}
  }

  /**
   * The loop of `setSettings`: every given key takes its new value and every
   * other stored key keeps its old one.
   */
  method MergeSettings(stored: map<string, Json>, settings: map<string, Json>)
    returns (merged: map<string, Json>)
    ensures merged.Keys == stored.Keys + settings.Keys
    ensures forall k :: k in settings ==> merged[k] == settings[k]
    ensures forall k :: k in stored && k !in settings ==> merged[k] == stored[k]
  {
    merged := stored;
    var pending := settings.Keys;
    while pending != {}
      invariant pending <= settings.Keys
      invariant merged.Keys == stored.Keys + (settings.Keys - pending)
      invariant forall k :: k in settings && k !in pending ==> merged[k] == settings[k]
      invariant forall k :: k in stored && k !in settings ==> merged[k] == stored[k]
      invariant forall k :: k in pending && k in stored ==> merged[k] == stored[k]
      decreases pending
    {
      var k :| k in pending;
      merged := merged[k := settings[k]];
      pending := pending - {k};
    }
  }

  /** The browser's `localStorage`, shared by all the accessors. */
  class LocalStorage {
    var items: Store

    ghost predicate Valid()
      reads this
    {
      WellFormed(items)
    }

    constructor (items: Store)
      requires WellFormed(items)
      ensures Valid() && this.items == items
    {
      this.items := items;
    }

    /** `clearStorage()`. */
    method ClearStorage()
      requires Valid()
      modifies this
      ensures Valid()
      ensures items == WithoutSession(old(items))
    {
      items := items - {SettingsKey, TokenKey};
    }

    /** `setCSRFToken(token)`. */
    method SetCSRFToken(token: Option<string>)
      requires Valid()
      modifies this
      ensures Valid()
      ensures items == WithCSRFToken(old(items), token)
    {
      var text := if token.Some? then token.value else "";
      items := items[TokenKey := Text(text)];
    }

    /** `setSettings(settings)`: merge into the stored settings and write them back. */
    method SetSettings(settings: map<string, Json>)
      requires Valid()
      modifies this
      ensures Valid()
      ensures items.Keys == old(items).Keys + {SettingsKey}
      ensures forall k :: k in old(items) && k != SettingsKey ==> items[k] == old(items)[k]
      ensures GetSettings(items).Keys == GetSettings(old(items)).Keys + settings.Keys
      ensures forall k :: k in settings ==> GetSettings(items)[k] == settings[k]
      ensures forall k :: k in GetSettings(old(items)) && k !in settings ==>
                GetSettings(items)[k] == GetSettings(old(items))[k]
    {
      var stored := GetSettings(items);
      var merged := MergeSettings(stored, settings);
      items := items[SettingsKey := Object(merged)];
    }
  }

  // ---------------------------------------------------------------------------
  // AJAX defaults
  // ---------------------------------------------------------------------------

  const TokenHeader: string := "X-CSRF-Token"

  /**
   * The request settings `ajax` looks at; None is a property that is
   * `undefined`. A header value of None is `null`.
   */
  datatype Request = Request(
    url: Option<string>,
    httpMethod: Option<string>,
    dataType: Option<string>,
    headers: Option<map<string, Option<string>>>)

  /** The request settings after `ajax(url, conf)` has filled in its defaults. */
  function WithDefaults(conf: Request, url: string, token: Option<string>): (r: Request)
    ensures r.url == Some(url)
    ensures conf.httpMethod.Some? ==> r.httpMethod == conf.httpMethod
    ensures conf.httpMethod.None? ==> r.httpMethod == Some("POST")
    ensures conf.dataType.Some? ==> r.dataType == conf.dataType
    ensures conf.dataType.None? ==> r.dataType == Some("json")
    ensures r.headers.Some? && TokenHeader in r.headers.value && r.headers.value[TokenHeader] == token
    ensures conf.headers.None? ==> r.headers.value.Keys == {TokenHeader}
    ensures conf.headers.Some? ==>
      r.headers.value.Keys == conf.headers.value.Keys + {TokenHeader} &&
      forall h :: h in conf.headers.value && h != TokenHeader ==> r.headers.value[h] == conf.headers.value[h]
  {
    var headers := if conf.headers.Some? then conf.headers.value else map[];
    Request(
      Some(url),
      Some(conf.httpMethod.GetOr("POST")),
      Some(conf.dataType.GetOr("json")),
      Some(headers[TokenHeader := token]))
  }

  /** Filling in the defaults twice with the same URL and token changes nothing more. */
  lemma WithDefaultsIdempotent(conf: Request, url: string, token: Option<string>)
    ensures WithDefaults(WithDefaults(conf, url, token), url, token) == WithDefaults(conf, url, token)
  {
    var once := WithDefaults(conf, url, token);
    var twice := WithDefaults(once, url, token);
    assert twice.headers.value == once.headers.value;
  }

  /** The `conf` object a caller hands to `ajax`, which fills it in place. */
  class AjaxConf {
    var url: Option<string>
    var httpMethod: Option<string>
    var dataType: Option<string>
    var headers: Option<map<string, Option<string>>>

    function Value(): Request
      reads this
    {
      Request(url, httpMethod, dataType, headers)
    }

    constructor (conf: Request)
      ensures Value() == conf
    {
      url, httpMethod, dataType, headers := conf.url, conf.httpMethod, conf.dataType, conf.headers;
    }
  }

  /**
   * `ajax(url, conf)`: fill in the defaults, stamp the current CSRF token,
   * ask the session timer to restart, and return the request that is sent.
   */
  method Ajax(url: string, conf: AjaxConf, storage: LocalStorage, restart: RestartCell)
    returns (sent: Request)
    requires storage.Valid()
    modifies conf, restart
    ensures conf.Value() == WithDefaults(old(conf.Value()), url, GetCSRFToken(storage.items))
    ensures restart.timer
    ensures sent == conf.Value()
  {
    conf.url := Some(url);
    conf.httpMethod := Some(conf.httpMethod.GetOr("POST"));
    conf.dataType := Some(conf.dataType.GetOr("json"));
    if conf.headers.None? {
      conf.headers := Some(map[]);
    }
    conf.headers := Some(conf.headers.value[TokenHeader := GetCSRFToken(storage.items)]);
    var _ := restart.RestartTimer(Some(true));
    sent := conf.Value();
  }

  // ---------------------------------------------------------------------------
  // Error handling
  // ---------------------------------------------------------------------------

  /** What the error handlers do, in order. */
  datatype Effect =
    | Replace(pathname: string, info: Option<string>)  // router.replace, with the `info` of the route state
    | Alert(message: Option<Json>)                      // window.alert; None is `undefined`
    | Reload                                            // location.reload()
    | ClearMasks                                        // setState({groupMask: false, nodeMask: false})

  /**
   * `error(r, s, e)` for a response with the given `status` and `responseJSON`;
   * `hasRouter` and `hasState` say whether the component it is bound to has
   * `props.router` and `state`.
   */
  function ErrorEffects(status: int, body: Option<Json>, e: string, hasRouter: bool, hasState: bool)
    : (r: seq<Effect>)
    ensures r == [] <==> e == "abort"
    ensures e != "abort" && status == 401 && hasRouter ==>
              r == [Replace("/db_login", None), Replace("/", Some("Session expired"))]
    ensures e != "abort" && status == 401 && !hasRouter ==>
              r == [Alert(Some(JStr("Your session expired"))), Reload]
    ensures e != "abort" && status != 401 ==>
              |r| >= 1 && (ClearMasks in r <==> hasState) &&
              r[|r| - 1] == Alert(if Truthy(body) then Get(body.value, "message") else Some(JStr(e)))
    ensures e != "abort" && status != 401 ==>
              |r| == (if hasState then 2 else 1) && (hasState ==> r[0] == ClearMasks)
  {
    if e == "abort" then []
    else if status == 401 then
      if hasRouter then [Replace("/db_login", None), Replace("/", Some("Session expired"))]
      else [Alert(Some(JStr("Your session expired"))), Reload]
    else
      var message := if Truthy(body) then Get(body.value, "message") else Some(JStr(e));
      (if hasState then [ClearMasks] else []) + [Alert(message)]
  }

  // ---------------------------------------------------------------------------
  // The login route chosen by checkAuth
  // ---------------------------------------------------------------------------

  /** The three authentication stages, checked in this order. */
  datatype Stage = User | Backend | Db

  const LoginOrder: seq<Stage> := [User, Backend, Db]

  function StageKey(stage: Stage): string {
    match stage
    case User => "user"
    case Backend => "backend"
    case Db => "db"
  }

  /** The first stage in `order` that the authentication status `auth` does not mark as done. */
  function FirstMissing(auth: Json, order: seq<Stage>): (r: Option<Stage>)
    ensures r.Some? ==> r.value in order && !Truthy(Get(auth, StageKey(r.value)))
    ensures r.None? ==> forall s :: s in order ==> Truthy(Get(auth, StageKey(s)))
    ensures r.Some? ==>
              exists i :: 0 <= i < |order| && order[i] == r.value &&
                (forall j :: 0 <= j < i ==> Truthy(Get(auth, StageKey(order[j]))))
  {
    if order == [] then None
    else if !Truthy(Get(auth, StageKey(order[0]))) then Some(order[0])
    else FirstMissing(auth, order[1..])
  }

  /** Over the fixed login order, the first missing stage is the first failing test of the if-chain. */
  lemma FirstMissingLoginOrder(auth: Json)
    ensures FirstMissing(auth, LoginOrder) ==
      if !Truthy(Get(auth, "user")) then Some(User)
      else if !Truthy(Get(auth, "backend")) then Some(Backend)
      else if !Truthy(Get(auth, "db")) then Some(Db)
      else None
  {
    assert [Db][1..] == [];
    assert FirstMissing(auth, [Db]) == if !Truthy(Get(auth, "db")) then Some(Db) else None;
    assert [Backend, Db][1..] == [Db];
    assert FirstMissing(auth, [Backend, Db]) ==
      if !Truthy(Get(auth, "backend")) then Some(Backend) else FirstMissing(auth, [Db]);
    assert LoginOrder[1..] == [Backend, Db];
  }

  /** The answer to `authenticated` is a challenge: a 401 whose JSON body carries a truthy `message`. */
  function Challenge(status: int, body: Option<Json>): (auth: Option<Json>)
    ensures auth.Some? ==> status == 401 && Truthy(body) && Truthy(auth)
    ensures status == 401 && Truthy(body) && Truthy(Get(body.value, "message")) ==>
              auth == Get(body.value, "message")
  {
    if status == 401 && Truthy(body) && Truthy(Get(body.value, "message"))
    then Get(body.value, "message") else None
  }

  /** `getSettings().template`: undefined when the settings have no such key. */
  function Template(settings: map<string, Json>): (t: Option<Json>)
    ensures t.Some? <==> "template" in settings
    ensures t.Some? ==> t.value == settings["template"]
  {
    if "template" in settings then Some(settings["template"]) else None
  }

  /** What the `error` callback of checkAuth does. */
  datatype AuthOutcome =
    | Reported(effects: seq<Effect>)           // not a 401 with a JSON body: handed to `error`
    | Stay                                     // nothing to do
    | Login(pathname: string, clearsStorage: bool)
    | Redirect(url: Option<Json>)              // window.location = template.url, then throw 'Redirecting'
    | TemplateTypeError                        // the `template` setting is missing: reading its `type` throws

  /**
   * The route decision of checkAuth for a failed `authenticated` request:
   * the first stage that is not done (user, then backend, then database)
   * picks the login page; for the backend stage the `template` setting
   * decides between a redirect, the login mask, and nothing.
   */
  function CheckAuth(status: int, body: Option<Json>, e: string, settings: map<string, Json>)
    : (r: AuthOutcome)
    ensures r.Reported? <==> !(status == 401 && Truthy(body))
    ensures r.Reported? ==> r.effects == ErrorEffects(status, body, e, false, false)
    ensures r.Login? && r.clearsStorage <==>
              Challenge(status, body).Some? && FirstMissing(Challenge(status, body).value, LoginOrder) == Some(User)
    ensures r == Login("/db_login", false) <==>
              Challenge(status, body).Some? && FirstMissing(Challenge(status, body).value, LoginOrder) == Some(Db)
    ensures r.Redirect? || r.TemplateTypeError? || r == Login("/backend_login", false) ==>
              Challenge(status, body).Some? && FirstMissing(Challenge(status, body).value, LoginOrder) == Some(Backend)
    ensures r.Login? ==> r in {Login("/user_login", true), Login("/backend_login", false), Login("/db_login", false)}
    ensures (r.Stay? && Challenge(status, body).Some? &&
             FirstMissing(Challenge(status, body).value, LoginOrder) != Some(Backend)) ==>
              FirstMissing(Challenge(status, body).value, LoginOrder).None?
    ensures Challenge(status, body).Some? && FirstMissing(Challenge(status, body).value, LoginOrder) == Some(Backend) ==>
              var template := Template(settings);
              if Nullish(template) then r == TemplateTypeError
              else if Get(template.value, "type") == Some(JStr("redirect")) then r == Redirect(Get(template.value, "url"))
              else if Get(template.value, "type") == Some(JStr("mask")) then r == Login("/backend_login", false)
              else r == Stay
  {
    if !(status == 401 && Truthy(body)) then Reported(ErrorEffects(status, body, e, false, false))
    else
      var auth := Get(body.value, "message");
      if !Truthy(auth) then Stay
      else
      FirstMissingLoginOrder(auth.value);
      if !Truthy(Get(auth.value, "user")) then Login("/user_login", true)
      else if !Truthy(Get(auth.value, "backend")) then
        var template := Template(settings);
        if Nullish(template) then TemplateTypeError
        else if Get(template.value, "type") == Some(JStr("redirect")) then Redirect(Get(template.value, "url"))
        else if Get(template.value, "type") == Some(JStr("mask")) then Login("/backend_login", false)
        else Stay
      else if !Truthy(Get(auth.value, "db")) then Login("/db_login", false)
      else Stay
  }

  /**
   * The `error` callback of checkAuth with its storage side effect: the
   * settings are read from storage, and routing to the user login clears it.
   */
  method OnAuthError(status: int, body: Option<Json>, e: string, storage: LocalStorage)
    returns (outcome: AuthOutcome)
    requires storage.Valid()
    modifies storage
    ensures storage.Valid()
    ensures outcome == CheckAuth(status, body, e, GetSettings(old(storage.items)))
    ensures storage.items == if outcome.Login? && outcome.clearsStorage
                             then WithoutSession(old(storage.items)) else old(storage.items)
  {
    outcome := CheckAuth(status, body, e, GetSettings(storage.items));
    if outcome.Login? && outcome.clearsStorage {
      storage.ClearStorage();
    }
  }
}
