/**
 The cached notification sender (backend/internal/app/companion_notification.go).
 Every call holds the mutex from beginning to end, so calls happen one after another.
 Parsing, trimming and the client's own validation are parameters.
 */
module NotificationCache {
  import opened Text

  datatype NotificationConfig = NotificationConfig(
    enabled: bool, templateID: string, titleField: string, timeField: string, state: string)

  datatype Settings = Settings(notificationJSON: string, appID: string, appSecret: string)

  /** A client is told apart from an equal one by its serial number: it keeps an access token of its own. */
  datatype Client = Client(
    serial: nat, appID: string, secret: string, titleField: string, timeField: string, state: string)

  datatype NotificationRuntime = NotificationRuntime(sender: Option<Client>, templateID: string, appID: string)

  const EMPTY := NotificationRuntime(None, "", "")

  datatype Library = Library(
    parse: string -> Option<NotificationConfig>,
    trimSpace: string -> string,
    accepts: (string, string, string) -> bool)

  /** What a sender is built from. */
  datatype Key = Key(config: NotificationConfig, appID: string, secret: string)

  /** The key of the current settings, or none while notifications are off. */
  function KeyOf(lib: Library, cfg: Settings): Option<Key> {
    var parsed := lib.parse(cfg.notificationJSON);
    var appID, secret := lib.trimSpace(cfg.appID), lib.trimSpace(cfg.appSecret);
    if parsed.None? || !parsed.value.enabled || appID == "" || secret == "" then None
    else Some(Key(parsed.value, appID, secret))
  }

  predicate Accepted(lib: Library, key: Key) {
    lib.accepts(key.config.titleField, key.config.timeField, key.config.state)
  }

  /** The runtime of a key, with the client numbered `serial`. */
  function Built(key: Key, serial: nat): NotificationRuntime {
    NotificationRuntime(
      Some(Client(serial, key.appID, key.secret, key.config.titleField, key.config.timeField, key.config.state)),
      key.config.templateID, key.appID)
  }

  /** What a provider without a cache returns. */
  function Uncached(lib: Library, cfg: Settings, serial: nat): NotificationRuntime {
    match KeyOf(lib, cfg)
    case None => EMPTY
    case Some(key) => if Accepted(lib, key) then Built(key, serial) else EMPTY
  }

  // The closure's variables

  datatype Cache = Cache(lastConfig: NotificationConfig, lastAppID: string, lastSecret: string,
                         current: NotificationRuntime, built: nat)

  const FRESH := Cache(NotificationConfig(false, "", "", "", ""), "", "", EMPTY, 0)

  /** The cached runtime, if there is one, is that of the remembered key. */
  predicate Coherent(c: Cache) {
    c.current.sender.Some? ==>
      && c.current == Built(LastKey(c), c.current.sender.value.serial)
      && c.current.sender.value.serial < c.built
  }

  function LastKey(c: Cache): Key {
    Key(c.lastConfig, c.lastAppID, c.lastSecret)
  }

  function Call(lib: Library, c: Cache, cfg: Settings): (Cache, NotificationRuntime) {
    match KeyOf(lib, cfg)
    case None => (c.(current := EMPTY, lastSecret := ""), EMPTY)
    case Some(key) =>
      if c.current.sender.Some? && key == LastKey(c) then (c, c.current)
      else if !Accepted(lib, key) then (c, EMPTY)
      else (Cache(key.config, key.appID, key.secret, Built(key, c.built), c.built + 1), Built(key, c.built))
  }

  function After(lib: Library, c: Cache, cfgs: seq<Settings>): Cache
    decreases |cfgs|
  {
    if cfgs == [] then c else After(lib, Call(lib, c, cfgs[0]).0, cfgs[1..])
  }

  class CompanionNotificationProvider {
    const lib: Library
    var lastConfig: NotificationConfig
    var lastAppID: string
    var lastSecret: string
    var current: NotificationRuntime
    var built: nat

    constructor (lib: Library)
      ensures this.lib == lib && State() == FRESH
    {
      this.lib := lib;
      lastConfig := NotificationConfig(false, "", "", "", "");
      lastAppID, lastSecret, current, built := "", "", EMPTY, 0;
    }

    function State(): Cache
      reads this
    {
      Cache(lastConfig, lastAppID, lastSecret, current, built)
    }

    method Provide(cfg: Settings) returns (runtime: NotificationRuntime)
      modifies this
      ensures (State(), runtime) == Call(lib, old(State()), cfg)
    {
      var c := lib.parse(cfg.notificationJSON);
      var appID, secret := lib.trimSpace(cfg.appID), lib.trimSpace(cfg.appSecret);
      if c.None? || !c.value.enabled || appID == "" || secret == "" {
        current := EMPTY;
        lastSecret := "";
        return current;
      }
      if current.sender.Some? && c.value == lastConfig && appID == lastAppID && secret == lastSecret {
        return current;
      }
      if !lib.accepts(c.value.titleField, c.value.timeField, c.value.state) {
        return EMPTY;
      }
      var sender := Client(built, appID, secret, c.value.titleField, c.value.timeField, c.value.state);
      built := built + 1;
      lastConfig, lastAppID, lastSecret := c.value, appID, secret;
      current := NotificationRuntime(Some(sender), c.value.templateID, appID);
      return current;
    }
  }

  // Results

  /** Cached and uncached agree on everything but the serial number. */
  function Unnumbered(r: NotificationRuntime): NotificationRuntime {
    if r.sender.Some? then r.(sender := Some(r.sender.value.(serial := 0))) else r
  }

  lemma CallMatchesUncached(lib: Library, c: Cache, cfg: Settings)
    requires Coherent(c) && KeptIsAccepted(lib, c)
    ensures var (after, runtime) := Call(lib, c, cfg);
            && Coherent(after) && KeptIsAccepted(lib, after)
            && Unnumbered(runtime) == Unnumbered(Uncached(lib, cfg, 0))
            && c.built <= after.built <= c.built + 1
  {
  }

  /** A sender is only ever kept for a key the client accepts. */
  predicate KeptIsAccepted(lib: Library, c: Cache) {
    c.current.sender.Some? ==> Accepted(lib, LastKey(c))
  }

  lemma {:induction false} AfterIsCoherent(lib: Library, c: Cache, cfgs: seq<Settings>)
    requires Coherent(c) && KeptIsAccepted(lib, c)
    ensures Coherent(After(lib, c, cfgs)) && KeptIsAccepted(lib, After(lib, c, cfgs))
    ensures c.built <= After(lib, c, cfgs).built
    decreases |cfgs|
  {
    if cfgs != [] {
      CallMatchesUncached(lib, c, cfgs[0]);
      AfterIsCoherent(lib, Call(lib, c, cfgs[0]).0, cfgs[1..]);
    }
  }

  /** After any sequence of settings the next call answers as an uncached provider would. */
  lemma ProviderMatchesUncached(lib: Library, history: seq<Settings>, cfg: Settings)
    ensures var runtime := Call(lib, After(lib, FRESH, history), cfg).1;
            && Unnumbered(runtime) == Unnumbered(Uncached(lib, cfg, 0))
            && (runtime != EMPTY ==>
                  KeyOf(lib, cfg).Some? && runtime.sender.Some?
                  && runtime == Built(KeyOf(lib, cfg).value, runtime.sender.value.serial))
  {
    AfterIsCoherent(lib, FRESH, history);
    CallMatchesUncached(lib, After(lib, FRESH, history), cfg);
  }

  /** Settings that leave the sender of `key` in place: the same key, or one the client refuses. */
  predicate Keeps(lib: Library, key: Key, cfg: Settings) {
    KeyOf(lib, cfg) == Some(key) || (KeyOf(lib, cfg).Some? && !Accepted(lib, KeyOf(lib, cfg).value))
  }

  predicate Holds(c: Cache, key: Key, serial: nat) {
    c.current == Built(key, serial) && LastKey(c) == key && serial < c.built
  }

  lemma {:induction false} KeptWhileKept(lib: Library, c: Cache, key: Key, serial: nat, cfgs: seq<Settings>)
    requires Holds(c, key, serial) && forall i | 0 <= i < |cfgs| :: Keeps(lib, key, cfgs[i])
    ensures Holds(After(lib, c, cfgs), key, serial)
    decreases |cfgs|
  {
    if cfgs != [] {
      assert Keeps(lib, key, cfgs[0]);
      KeptWhileKept(lib, Call(lib, c, cfgs[0]).0, key, serial, cfgs[1..]);
    }
  }

  /** Once dropped, a sender is gone for good: later ones have other numbers. */
  predicate Dropped(c: Cache, serial: nat) {
    serial < c.built && (c.current.sender.Some? ==> c.current.sender.value.serial != serial)
  }

  lemma {:induction false} DroppedForever(lib: Library, c: Cache, serial: nat, cfgs: seq<Settings>)
    requires Dropped(c, serial)
    ensures Dropped(After(lib, c, cfgs), serial)
    decreases |cfgs|
  {
    if cfgs != [] {
      DroppedForever(lib, Call(lib, c, cfgs[0]).0, serial, cfgs[1..]);
    }
  }

  lemma {:induction false} DroppedWhenNotKept(lib: Library, c: Cache, key: Key, serial: nat, cfgs: seq<Settings>, i: nat)
    requires Holds(c, key, serial) && i < |cfgs| && !Keeps(lib, key, cfgs[i])
    ensures Dropped(After(lib, c, cfgs), serial)
    decreases |cfgs|
  {
    var next := Call(lib, c, cfgs[0]).0;
    if !Keeps(lib, key, cfgs[0]) {
      DroppedForever(lib, next, serial, cfgs[1..]);
    } else {
      DroppedWhenNotKept(lib, next, key, serial, cfgs[1..], i - 1);
    }
  }

  /**
   The sender handed out for a key is handed out again exactly as long as nothing in
   between turned notifications off or replaced it: settings the client refuses do not count.
   */
  lemma SameSenderIff(lib: Library, history: seq<Settings>, first: Settings, between: seq<Settings>, again: Settings)
    requires KeyOf(lib, first).Some? && Accepted(lib, KeyOf(lib, first).value)
    requires KeyOf(lib, again) == KeyOf(lib, first)
    ensures var c := After(lib, FRESH, history);
            var (c', r) := Call(lib, c, first);
            var r' := Call(lib, After(lib, c', between), again).1;
            && r.sender.Some? && r'.sender.Some?
            && (r'.sender == r.sender
                <==> forall i | 0 <= i < |between| :: Keeps(lib, KeyOf(lib, first).value, between[i]))
  {
    var key := KeyOf(lib, first).value;
    var c := After(lib, FRESH, history);
    AfterIsCoherent(lib, FRESH, history);
    var (c', r) := Call(lib, c, first);
    var serial := r.sender.value.serial;
    assert Holds(c', key, serial);
    if forall i | 0 <= i < |between| :: Keeps(lib, key, between[i]) {
      KeptWhileKept(lib, c', key, serial, between);
    } else {
      var i :| 0 <= i < |between| && !Keeps(lib, key, between[i]);
      DroppedWhenNotKept(lib, c', key, serial, between, i);
    }
  }

  // What is handed out, in terms of the current settings

  /** Notifications are on: the settings parse and say so, there are credentials, and the client accepts the fields. */
  predicate On(lib: Library, cfg: Settings) {
    && lib.parse(cfg.notificationJSON).Some?
    && lib.parse(cfg.notificationJSON).value.enabled
    && lib.trimSpace(cfg.appID) != "" && lib.trimSpace(cfg.appSecret) != ""
    && var c := lib.parse(cfg.notificationJSON).value;
       lib.accepts(c.titleField, c.timeField, c.state)
  }

  /**
   After any history a sender is handed out if and only if notifications are on now, and
   everything in it and around it comes from the current settings.
   */
  lemma SenderIff(lib: Library, history: seq<Settings>, cfg: Settings)
    ensures var runtime := Call(lib, After(lib, FRESH, history), cfg).1;
            && (runtime.sender.Some? <==> On(lib, cfg))
            && (runtime.sender.None? ==> runtime.templateID == "" && runtime.appID == "")
            && (runtime.sender.Some? ==>
                  var c, sender := lib.parse(cfg.notificationJSON).value, runtime.sender.value;
                  && sender.appID == lib.trimSpace(cfg.appID) && sender.secret == lib.trimSpace(cfg.appSecret)
                  && sender.titleField == c.titleField && sender.timeField == c.timeField && sender.state == c.state
                  && runtime.templateID == c.templateID && runtime.appID == lib.trimSpace(cfg.appID))
  {
    AfterIsCoherent(lib, FRESH, history);
    CallMatchesUncached(lib, After(lib, FRESH, history), cfg);
  }
}
