/**
 * `DeviceConfig`: a cache of the device id and the WiFi credentials,
 * loaded from the ESP32's non-volatile storage (NVS) at start-up, with a
 * default written for every key that is missing, and written back by the
 * setters.
 *
 * The NVS partition is a map from keys to strings. What the flash driver
 * answers (init, open, set, commit) arrives as error-code parameters; a
 * read answers from the map. The ghost `log` records every call that can
 * write: each `nvs_set_str`, each `nvs_commit` and the erase.
 */
module DeviceConfiguration {

  /** The `esp_err_t` values the component tells apart. */
  datatype EspErr =
    | EspOk                   // ESP_OK
    | NvsNoFreePages          // ESP_ERR_NVS_NO_FREE_PAGES
    | NvsNewVersionFound      // ESP_ERR_NVS_NEW_VERSION_FOUND
    | NvsNotFound             // ESP_ERR_NVS_NOT_FOUND
    | EspFailure(code: int)   // any other error

  const KEY_DEVICE_ID: string := "device_id"
  const KEY_WIFI_SSID: string := "wifi_ssid"
  const KEY_WIFI_PASS: string := "wifi_pass"

  const DEFAULT_DEVICE_ID: string := "d6e82982-697f-11f0-bb42-fbdbc29338ec"
  const DEFAULT_WIFI_SSID: string := "heartoken_default"
  const DEFAULT_WIFI_PASS: string := "satisfactron_42"

  /** A call that can change the partition. */
  datatype StoreOp = SetAttempt(key: string, value: string) | CommitWrites | EraseAll

  /** The three cached fields. */
  datatype Cache = Cache(deviceId: string, wifiSSID: string, wifiPassword: string)

  const DEFAULT_CACHE: Cache := Cache(DEFAULT_DEVICE_ID, DEFAULT_WIFI_SSID, DEFAULT_WIFI_PASS)

  /** What the driver answers during one `init`. */
  datatype InitAnswers = InitAnswers(
    flashInit: EspErr,      // the first `nvs_flash_init()`
    flashReinit: EspErr,    // the second, after an erase
    open: EspErr,           // `nvs_open`
    setDeviceId: EspErr,    // `nvs_set_str` of a default device id
    setWifiSsid: EspErr,    // `nvs_set_str` of the default SSID
    setWifiPass: EspErr,    // `nvs_set_str` of the default password
    commit: EspErr)         // every `nvs_commit` (its result is not looked at)

  /** A setter's driver answers: open, the set(s) and the commit. */
  datatype SetAnswers = SetAnswers(open: EspErr, setFirst: EspErr, setSecond: EspErr, commit: EspErr)

  /** The end state of a run against the store. */
  datatype Outcome = Outcome(ok: bool, cache: Cache, entries: map<string, string>, ops: seq<StoreOp>)

  /** The flash driver's state after start-up: its last answer, the partition, the calls. */
  datatype FlashState = FlashState(err: EspErr, entries: map<string, string>, ops: seq<StoreOp>)

  /** One key loaded at `init`: the value cached, and the partition and calls after. */
  datatype Load = Load(value: string, entries: map<string, string>, ops: seq<StoreOp>)

  // ---------------------------------------------------------------------
  // What the runs do, as functions of the partition and the answers
  // ---------------------------------------------------------------------

  /**
   * One key at `init`: a stored value is loaded; otherwise the default is
   * cached and written (and committed when the write succeeds). `guarded`
   * marks the keys whose default is written only when it is non-empty.
   */
  function LoadKey(entries: map<string, string>, key: string, default: string, guarded: bool, setErr: EspErr): Load {
    if key in entries then Load(entries[key], entries, [])
    else if guarded && |default| == 0 then Load(default, entries, [])
    else if setErr == EspOk then Load(default, entries[key := default], [SetAttempt(key, default), CommitWrites])
    else Load(default, entries, [SetAttempt(key, default)])
  }

  /** The flash start-up: on "no free pages" or "new version found", erase and init again. */
  function FlashStart(entries: map<string, string>, a: InitAnswers): FlashState {
    if a.flashInit == NvsNoFreePages || a.flashInit == NvsNewVersionFound then FlashState(a.flashReinit, map[], [EraseAll])
    else FlashState(a.flashInit, entries, [])
  }

  /** `init`, from the partition `entries` and the cache `cached` it finds. */
  function InitRun(entries: map<string, string>, a: InitAnswers, cached: Cache): Outcome {
    var start := FlashStart(entries, a);
    var flashed, erase := start.entries, start.ops;
    if start.err != EspOk then Outcome(false, cached, flashed, erase)
    else if a.open != EspOk then Outcome(true, DEFAULT_CACHE, flashed, erase)
    else
      var loaded := LoadAll(flashed, a);
      Outcome(true, loaded.cache, loaded.entries, erase + loaded.ops)
  }

  /** The three keys in turn, once the namespace is open. */
  function LoadAll(entries: map<string, string>, a: InitAnswers): Outcome {
    var id := LoadKey(entries, KEY_DEVICE_ID, DEFAULT_DEVICE_ID, false, a.setDeviceId);
    var ssid := LoadKey(id.entries, KEY_WIFI_SSID, DEFAULT_WIFI_SSID, true, a.setWifiSsid);
    var pass := LoadKey(ssid.entries, KEY_WIFI_PASS, DEFAULT_WIFI_PASS, true, a.setWifiPass);
    Outcome(true, Cache(id.value, ssid.value, pass.value), pass.entries, id.ops + ssid.ops + pass.ops)
  }

  /** `setDeviceId(newId)`; `setSecond` plays no part. */
  function SetDeviceIdRun(entries: map<string, string>, newId: string, cached: Cache, a: SetAnswers): Outcome {
    if a.open != EspOk then Outcome(false, cached, entries, [])
    else if a.setFirst != EspOk then Outcome(false, cached, entries, [SetAttempt(KEY_DEVICE_ID, newId)])
    else
      var written := entries[KEY_DEVICE_ID := newId];
      var ops := [SetAttempt(KEY_DEVICE_ID, newId), CommitWrites];
      if a.commit != EspOk then Outcome(false, cached, written, ops)
      else Outcome(true, cached.(deviceId := newId), written, ops)
  }

  /** `setWiFiCredentials(ssid, password)`: both sets are tried; commit only if both succeeded. */
  function SetWiFiRun(entries: map<string, string>, ssid: string, password: string, cached: Cache, a: SetAnswers): Outcome {
    if a.open != EspOk then Outcome(false, cached, entries, [])
    else
      var afterSsid := if a.setFirst == EspOk then entries[KEY_WIFI_SSID := ssid] else entries;
      var afterPass := if a.setSecond == EspOk then afterSsid[KEY_WIFI_PASS := password] else afterSsid;
      var ops := [SetAttempt(KEY_WIFI_SSID, ssid), SetAttempt(KEY_WIFI_PASS, password)];
      if a.setFirst != EspOk || a.setSecond != EspOk then Outcome(false, cached, afterPass, ops)
      else if a.commit != EspOk then Outcome(false, cached, afterPass, ops + [CommitWrites])
      else Outcome(true, cached.(wifiSSID := ssid, wifiPassword := password), afterPass, ops + [CommitWrites])
  }

  predicate NoWrites(ops: seq<StoreOp>) {
    forall i :: 0 <= i < |ops| ==> !ops[i].SetAttempt?
  }

  // ---------------------------------------------------------------------
  // The partition and the cache
  // ---------------------------------------------------------------------

  /** The NVS partition behind the `device_config` namespace. */
  class Nvs {
    var entries: map<string, string>
    ghost var log: seq<StoreOp>

    constructor (initial: map<string, string>)
      ensures entries == initial && log == []
    {
      entries := initial;
      log := [];
    }

    /** `nvs_flash_erase()`: the partition is wiped. */
    method Erase()
      modifies this
      ensures entries == map[] && log == old(log) + [EraseAll]
    {
      entries := map[];
      log := log + [EraseAll];
    }

    /**
     * `nvs_get_str(handle, key, NULL, &required_size)`: the size of the
     * stored string including its terminating NUL, or "not found".
     */
    method GetStrSize(key: string) returns (err: EspErr, requiredSize: nat)
      ensures key in entries ==> err == EspOk && requiredSize == |entries[key]| + 1
      ensures key !in entries ==> err == NvsNotFound && requiredSize == 0
    {
      if key in entries {
        return EspOk, |entries[key]| + 1;
      }
      return NvsNotFound, 0;
    }

    /** `nvs_get_str(handle, key, buffer, &required_size)` into a large enough buffer. */
    method GetStr(key: string) returns (err: EspErr, value: string)
      requires key in entries
      ensures err == EspOk && value == entries[key]
    {
      return EspOk, entries[key];
    }

    /** `nvs_set_str(handle, key, value)`, answering `answer`. */
    method SetStr(key: string, value: string, answer: EspErr) returns (err: EspErr)
      modifies this
      ensures err == answer
      ensures entries == if answer == EspOk then old(entries)[key := value] else old(entries)
      ensures log == old(log) + [SetAttempt(key, value)]
    {
      if answer == EspOk {
        entries := entries[key := value];
      }
      log := log + [SetAttempt(key, value)];
      return answer;
    }

    /** `nvs_commit(handle)`, answering `answer`. */
    method Commit(answer: EspErr) returns (err: EspErr)
      modifies this`log
      ensures err == answer && log == old(log) + [CommitWrites]
    {
      log := log + [CommitWrites];
      return answer;
    }
  }

  class DeviceConfig {
    var deviceId: string
    var wifiSSID: string
    var wifiPassword: string

    ghost function Cached(): Cache
      reads this
    {
      Cache(deviceId, wifiSSID, wifiPassword)
    }

    /** The global `DeviceConfig deviceConfig;`: three empty `String`s. */
    constructor ()
      ensures Cached() == Cache("", "", "")
    {
      deviceId := "";
      wifiSSID := "";
      wifiPassword := "";
    }

    function GetDeviceId(): string
      reads this
    {
      deviceId
    }

    function GetWiFiSSID(): string
      reads this
    {
      wifiSSID
    }

    function GetWiFiPassword(): string
      reads this
    {
      wifiPassword
    }

    /** The load-or-provision step `init` performs for one key. */
    static method LoadOrProvision(nvs: Nvs, key: string, default: string, guarded: bool,
                                  setErr: EspErr, commitErr: EspErr) returns (value: string)
      modifies nvs
      ensures var load := LoadKey(old(nvs.entries), key, default, guarded, setErr);
        value == load.value && nvs.entries == load.entries && nvs.log == old(nvs.log) + load.ops
    {
      var err, requiredSize := nvs.GetStrSize(key);
      if err == EspOk && requiredSize > 0 {
        var _, stored := nvs.GetStr(key);
        return stored;
      }
      value := default;
      if !guarded || |value| > 0 {
        err := nvs.SetStr(key, value, setErr);
        if err == EspOk {
          var _ := nvs.Commit(commitErr);
        }
      }
    }

    /** `nvs_flash_init()`, and on "no free pages" or "new version found" an erase and a second init. */
    static method StartFlash(nvs: Nvs, a: InitAnswers) returns (err: EspErr)
      modifies nvs
      ensures var start := FlashStart(old(nvs.entries), a);
        err == start.err && nvs.entries == start.entries && nvs.log == old(nvs.log) + start.ops
    {
      err := a.flashInit;
      if err == NvsNoFreePages || err == NvsNewVersionFound {
        nvs.Erase();
        err := a.flashReinit;
      }
    }

    /** The three load-or-provision steps of `init`. */
    method LoadKeys(nvs: Nvs, a: InitAnswers)
      modifies this, nvs
      ensures var loaded := LoadAll(old(nvs.entries), a);
        Cached() == loaded.cache && nvs.entries == loaded.entries && nvs.log == old(nvs.log) + loaded.ops
    {
      ghost var id := LoadKey(nvs.entries, KEY_DEVICE_ID, DEFAULT_DEVICE_ID, false, a.setDeviceId);
      deviceId := LoadOrProvision(nvs, KEY_DEVICE_ID, DEFAULT_DEVICE_ID, false, a.setDeviceId, a.commit);
      ghost var ssid := LoadKey(nvs.entries, KEY_WIFI_SSID, DEFAULT_WIFI_SSID, true, a.setWifiSsid);
      wifiSSID := LoadOrProvision(nvs, KEY_WIFI_SSID, DEFAULT_WIFI_SSID, true, a.setWifiSsid, a.commit);
      ghost var pass := LoadKey(nvs.entries, KEY_WIFI_PASS, DEFAULT_WIFI_PASS, true, a.setWifiPass);
      wifiPassword := LoadOrProvision(nvs, KEY_WIFI_PASS, DEFAULT_WIFI_PASS, true, a.setWifiPass, a.commit);
    }

    method Init(nvs: Nvs, a: InitAnswers) returns (ok: bool)
      modifies this, nvs
      ensures var run := InitRun(old(nvs.entries), a, old(Cached()));
        ok == run.ok && Cached() == run.cache && nvs.entries == run.entries && nvs.log == old(nvs.log) + run.ops
    {
      var err := StartFlash(nvs, a);
      if err != EspOk {
        return false;
      }
      if a.open != EspOk {
        deviceId := DEFAULT_DEVICE_ID;
        wifiSSID := DEFAULT_WIFI_SSID;
        wifiPassword := DEFAULT_WIFI_PASS;
        return true;
      }
      LoadKeys(nvs, a);
      return true;
    }

    method SetDeviceId(nvs: Nvs, newId: string, a: SetAnswers) returns (ok: bool)
      modifies this, nvs
      ensures var run := SetDeviceIdRun(old(nvs.entries), newId, old(Cached()), a);
        ok == run.ok && Cached() == run.cache && nvs.entries == run.entries && nvs.log == old(nvs.log) + run.ops
    {
      if a.open != EspOk {
        return false;
      }
      var err := nvs.SetStr(KEY_DEVICE_ID, newId, a.setFirst);
      if err == EspOk {
        err := nvs.Commit(a.commit);
        if err == EspOk {
          deviceId := newId;
        }
      }
      return err == EspOk;
    }

    method SetWiFiCredentials(nvs: Nvs, ssid: string, password: string, a: SetAnswers) returns (success: bool)
      modifies this, nvs
      ensures var run := SetWiFiRun(old(nvs.entries), ssid, password, old(Cached()), a);
        success == run.ok && Cached() == run.cache && nvs.entries == run.entries && nvs.log == old(nvs.log) + run.ops
    {
      if a.open != EspOk {
        return false;
      }
      success := true;
      var err := nvs.SetStr(KEY_WIFI_SSID, ssid, a.setFirst);
      if err != EspOk {
        success := false;
      }
      err := nvs.SetStr(KEY_WIFI_PASS, password, a.setSecond);
      if err != EspOk {
        success := false;
      }
      if success {
        err := nvs.Commit(a.commit);
        if err == EspOk {
          wifiSSID := ssid;
          wifiPassword := password;
        } else {
          success := false;
        }
      }
    }
  }

  // ---------------------------------------------------------------------
  // Properties of the runs
  // ---------------------------------------------------------------------

  lemma KeysDistinct()
    ensures KEY_DEVICE_ID != KEY_WIFI_SSID && KEY_DEVICE_ID != KEY_WIFI_PASS && KEY_WIFI_SSID != KEY_WIFI_PASS
  {
    assert KEY_DEVICE_ID[0] != KEY_WIFI_SSID[0] && KEY_DEVICE_ID[0] != KEY_WIFI_PASS[0];
    assert KEY_WIFI_SSID[5] != KEY_WIFI_PASS[5];
  }

  /** Init writes to the store only through `nvs_set_str`, and a load never removes a key. */
  lemma LoadKeyKeepsKeys(entries: map<string, string>, key: string, default: string, guarded: bool, setErr: EspErr)
    ensures var load := LoadKey(entries, key, default, guarded, setErr);
      (forall k :: k in entries ==> k in load.entries && load.entries[k] == entries[k]) &&
      (forall k :: k in load.entries && k != key ==> k in entries) &&
      forall i :: 0 <= i < |load.ops| ==> load.ops[i] != EraseAll
  {
  }

  /** `init` succeeds exactly when the flash is ready, after at most one erase and retry. */
  lemma InitSucceedsWhenFlashReady(entries: map<string, string>, a: InitAnswers, cached: Cache)
    ensures InitRun(entries, a, cached).ok <==> FlashStart(entries, a).err == EspOk
  {
  }

  /** A flash that stays unusable: false, the cache untouched, nothing set. */
  lemma FlashFailureKeepsCache(entries: map<string, string>, a: InitAnswers, cached: Cache)
    requires FlashStart(entries, a).err != EspOk
    ensures var run := InitRun(entries, a, cached);
      !run.ok && run.cache == cached && NoWrites(run.ops)
  {
  }

  /** The partition is erased exactly when the first flash init reports no free pages or a new layout. */
  lemma EraseOnlyForFullOrNewLayout(entries: map<string, string>, a: InitAnswers, cached: Cache)
    ensures EraseAll in InitRun(entries, a, cached).ops <==>
              a.flashInit == NvsNoFreePages || a.flashInit == NvsNewVersionFound
  {
    var run := InitRun(entries, a, cached);
    var start := FlashStart(entries, a);
    if start.err == EspOk && a.open == EspOk {
      var id := LoadKey(start.entries, KEY_DEVICE_ID, DEFAULT_DEVICE_ID, false, a.setDeviceId);
      var ssid := LoadKey(id.entries, KEY_WIFI_SSID, DEFAULT_WIFI_SSID, true, a.setWifiSsid);
      LoadKeyKeepsKeys(start.entries, KEY_DEVICE_ID, DEFAULT_DEVICE_ID, false, a.setDeviceId);
      LoadKeyKeepsKeys(id.entries, KEY_WIFI_SSID, DEFAULT_WIFI_SSID, true, a.setWifiSsid);
      LoadKeyKeepsKeys(ssid.entries, KEY_WIFI_PASS, DEFAULT_WIFI_PASS, true, a.setWifiPass);
      assert EraseAll !in LoadAll(start.entries, a).ops;
    }
  }

  /** An unopenable namespace: true, all three defaults cached, nothing set. */
  lemma OpenFailureUsesDefaults(entries: map<string, string>, a: InitAnswers, cached: Cache)
    requires FlashStart(entries, a).err == EspOk && a.open != EspOk
    ensures var run := InitRun(entries, a, cached);
      run.ok && run.cache == DEFAULT_CACHE && NoWrites(run.ops) &&
      run.entries == FlashStart(entries, a).entries
  {
  }

  /**
   * Once the flash is ready (after an erase or not) and the namespace open,
   * each cached field is the value stored in the partition as the flash
   * start-up left it, or the default when the key is missing.
   */
  lemma InitLoadsStoredValues(entries: map<string, string>, a: InitAnswers, cached: Cache)
    requires FlashStart(entries, a).err == EspOk && a.open == EspOk
    ensures var e := FlashStart(entries, a).entries;
      var c := InitRun(entries, a, cached).cache;
      c.deviceId == (if KEY_DEVICE_ID in e then e[KEY_DEVICE_ID] else DEFAULT_DEVICE_ID) &&
      c.wifiSSID == (if KEY_WIFI_SSID in e then e[KEY_WIFI_SSID] else DEFAULT_WIFI_SSID) &&
      c.wifiPassword == (if KEY_WIFI_PASS in e then e[KEY_WIFI_PASS] else DEFAULT_WIFI_PASS)
  {
    LoadAllLoadsStoredValues(FlashStart(entries, a).entries, a);
  }

  lemma LoadAllLoadsStoredValues(entries: map<string, string>, a: InitAnswers)
    ensures var c := LoadAll(entries, a).cache;
      c.deviceId == (if KEY_DEVICE_ID in entries then entries[KEY_DEVICE_ID] else DEFAULT_DEVICE_ID) &&
      c.wifiSSID == (if KEY_WIFI_SSID in entries then entries[KEY_WIFI_SSID] else DEFAULT_WIFI_SSID) &&
      c.wifiPassword == (if KEY_WIFI_PASS in entries then entries[KEY_WIFI_PASS] else DEFAULT_WIFI_PASS)
  {
    KeysDistinct();
    var id := LoadKey(entries, KEY_DEVICE_ID, DEFAULT_DEVICE_ID, false, a.setDeviceId);
    var ssid := LoadKey(id.entries, KEY_WIFI_SSID, DEFAULT_WIFI_SSID, true, a.setWifiSsid);
    LoadKeyKeepsKeys(entries, KEY_DEVICE_ID, DEFAULT_DEVICE_ID, false, a.setDeviceId);
    LoadKeyKeepsKeys(id.entries, KEY_WIFI_SSID, DEFAULT_WIFI_SSID, true, a.setWifiSsid);
    assert KEY_WIFI_SSID in id.entries <==> KEY_WIFI_SSID in entries;
    assert KEY_WIFI_PASS in ssid.entries <==> KEY_WIFI_PASS in entries;
  }

  /**
   * Every key that was present keeps its value, and a missing key whose
   * default was written holds that default afterwards.
   */
  lemma InitProvisionsMissingKeys(entries: map<string, string>, a: InitAnswers, cached: Cache)
    requires FlashStart(entries, a).err == EspOk && a.open == EspOk
    requires a.setDeviceId == EspOk && a.setWifiSsid == EspOk && a.setWifiPass == EspOk
    ensures var run := InitRun(entries, a, cached);
      KEY_DEVICE_ID in run.entries && run.entries[KEY_DEVICE_ID] == run.cache.deviceId &&
      KEY_WIFI_SSID in run.entries && run.entries[KEY_WIFI_SSID] == run.cache.wifiSSID &&
      KEY_WIFI_PASS in run.entries && run.entries[KEY_WIFI_PASS] == run.cache.wifiPassword
  {
    LoadAllProvisionsMissingKeys(FlashStart(entries, a).entries, a);
  }

  lemma LoadAllProvisionsMissingKeys(entries: map<string, string>, a: InitAnswers)
    requires a.setDeviceId == EspOk && a.setWifiSsid == EspOk && a.setWifiPass == EspOk
    ensures var loaded := LoadAll(entries, a);
      KEY_DEVICE_ID in loaded.entries && loaded.entries[KEY_DEVICE_ID] == loaded.cache.deviceId &&
      KEY_WIFI_SSID in loaded.entries && loaded.entries[KEY_WIFI_SSID] == loaded.cache.wifiSSID &&
      KEY_WIFI_PASS in loaded.entries && loaded.entries[KEY_WIFI_PASS] == loaded.cache.wifiPassword
  {
    KeysDistinct();
    var id := LoadKey(entries, KEY_DEVICE_ID, DEFAULT_DEVICE_ID, false, a.setDeviceId);
    var ssid := LoadKey(id.entries, KEY_WIFI_SSID, DEFAULT_WIFI_SSID, true, a.setWifiSsid);
    LoadKeyKeepsKeys(id.entries, KEY_WIFI_SSID, DEFAULT_WIFI_SSID, true, a.setWifiSsid);
    LoadKeyKeepsKeys(ssid.entries, KEY_WIFI_PASS, DEFAULT_WIFI_PASS, true, a.setWifiPass);
  }

  /**
   * After an erase and a successful retry the partition is empty: `init`
   * caches the three defaults, and when every set succeeds it stores them,
   * one set and one commit per key.
   */
  lemma InitAfterEraseProvisionsDefaults(entries: map<string, string>, a: InitAnswers, cached: Cache)
    requires a.flashInit == NvsNoFreePages || a.flashInit == NvsNewVersionFound
    requires a.flashReinit == EspOk && a.open == EspOk
    ensures var run := InitRun(entries, a, cached);
      run.ok && run.cache == DEFAULT_CACHE &&
      (a.setDeviceId == EspOk && a.setWifiSsid == EspOk && a.setWifiPass == EspOk ==>
        run.entries == map[KEY_DEVICE_ID := DEFAULT_DEVICE_ID, KEY_WIFI_SSID := DEFAULT_WIFI_SSID,
                            KEY_WIFI_PASS := DEFAULT_WIFI_PASS] &&
        run.ops == [EraseAll, SetAttempt(KEY_DEVICE_ID, DEFAULT_DEVICE_ID), CommitWrites,
                    SetAttempt(KEY_WIFI_SSID, DEFAULT_WIFI_SSID), CommitWrites,
                    SetAttempt(KEY_WIFI_PASS, DEFAULT_WIFI_PASS), CommitWrites])
  {
    InitLoadsStoredValues(entries, a, cached);
  }

  /** With all three keys stored, `init` loads them and sets nothing. */
  lemma InitOnProvisionedStore(entries: map<string, string>, a: InitAnswers, cached: Cache)
    requires a.flashInit == EspOk && a.open == EspOk
    requires KEY_DEVICE_ID in entries && KEY_WIFI_SSID in entries && KEY_WIFI_PASS in entries
    ensures var run := InitRun(entries, a, cached);
      run.ok && run.entries == entries && run.ops == [] &&
      run.cache == Cache(entries[KEY_DEVICE_ID], entries[KEY_WIFI_SSID], entries[KEY_WIFI_PASS])
  {
  }

  /**
   * `init` is idempotent on a healthy store: once a first `init` has stored
   * its defaults, a second one caches the same values and sets nothing.
   */
  lemma InitIdempotent(entries: map<string, string>, a1: InitAnswers, a2: InitAnswers, cached: Cache)
    requires FlashStart(entries, a1).err == EspOk && a1.open == EspOk
    requires a1.setDeviceId == EspOk && a1.setWifiSsid == EspOk && a1.setWifiPass == EspOk
    requires a2.flashInit == EspOk && a2.open == EspOk
    ensures var first := InitRun(entries, a1, cached);
      var second := InitRun(first.entries, a2, first.cache);
      second.ok && second.cache == first.cache && second.entries == first.entries && NoWrites(second.ops)
  {
    var first := InitRun(entries, a1, cached);
    InitProvisionsMissingKeys(entries, a1, cached);
    InitOnProvisionedStore(first.entries, a2, first.cache);
  }

  /** `setDeviceId` reports success exactly when open, set and commit all succeed. */
  lemma SetDeviceIdResult(entries: map<string, string>, newId: string, cached: Cache, a: SetAnswers)
    ensures var run := SetDeviceIdRun(entries, newId, cached, a);
      (run.ok <==> a.open == EspOk && a.setFirst == EspOk && a.commit == EspOk) &&
      run.cache == (if run.ok then cached.(deviceId := newId) else cached)
  {
  }

  /** `setWiFiCredentials` reports success exactly when open, both sets and the commit succeed. */
  lemma SetWiFiResult(entries: map<string, string>, ssid: string, password: string, cached: Cache, a: SetAnswers)
    ensures var run := SetWiFiRun(entries, ssid, password, cached, a);
      (run.ok <==> a.open == EspOk && a.setFirst == EspOk && a.setSecond == EspOk && a.commit == EspOk) &&
      run.cache.deviceId == cached.deviceId &&
      (run.ok ==> run.cache.wifiSSID == ssid && run.cache.wifiPassword == password) &&
      (!run.ok ==> run.cache == cached)
  {
  }

  /** A failed setter, whatever failed, leaves every cached field as it was. */
  lemma FailedSettersKeepCache(entries: map<string, string>, id: string, ssid: string, password: string,
                               cached: Cache, a: SetAnswers)
    ensures !SetDeviceIdRun(entries, id, cached, a).ok ==> SetDeviceIdRun(entries, id, cached, a).cache == cached
    ensures !SetWiFiRun(entries, ssid, password, cached, a).ok ==> SetWiFiRun(entries, ssid, password, cached, a).cache == cached
  {
  }

  /**
   * The password is written even when the SSID write failed, so a failed
   * `setWiFiCredentials` can leave a new password stored beside the old SSID
   * while the cache keeps the old pair.
   */
  lemma PasswordWrittenAfterSsidFailure(entries: map<string, string>, ssid: string, password: string,
                                        cached: Cache, a: SetAnswers)
    requires a.open == EspOk && a.setFirst != EspOk && a.setSecond == EspOk
    ensures var run := SetWiFiRun(entries, ssid, password, cached, a);
      !run.ok && run.cache == cached && SetAttempt(KEY_WIFI_PASS, password) in run.ops &&
      KEY_WIFI_PASS in run.entries && run.entries[KEY_WIFI_PASS] == password &&
      (KEY_WIFI_SSID in run.entries <==> KEY_WIFI_SSID in entries)
  {
    KeysDistinct();
    assert SetWiFiRun(entries, ssid, password, cached, a).ops[1] == SetAttempt(KEY_WIFI_PASS, password);
  }

  /** Round trip: a successful `setDeviceId(x)`, then `init` on the same store, caches x. */
  lemma SetDeviceIdThenInit(entries: map<string, string>, x: string, cached: Cache, s: SetAnswers, a: InitAnswers)
    requires SetDeviceIdRun(entries, x, cached, s).ok
    requires a.flashInit == EspOk && a.open == EspOk
    ensures var stored := SetDeviceIdRun(entries, x, cached, s);
      InitRun(stored.entries, a, stored.cache).cache.deviceId == x
  {
    var stored := SetDeviceIdRun(entries, x, cached, s);
    InitLoadsStoredValues(stored.entries, a, stored.cache);
  }

  /** Round trip: a successful `setWiFiCredentials(s, p)`, then `init` on the same store, caches s and p. */
  lemma SetWiFiThenInit(entries: map<string, string>, ssid: string, password: string, cached: Cache,
                        s: SetAnswers, a: InitAnswers)
    requires SetWiFiRun(entries, ssid, password, cached, s).ok
    requires a.flashInit == EspOk && a.open == EspOk
    ensures var stored := SetWiFiRun(entries, ssid, password, cached, s);
      var c := InitRun(stored.entries, a, stored.cache).cache;
      c.wifiSSID == ssid && c.wifiPassword == password
  {
    KeysDistinct();
    var stored := SetWiFiRun(entries, ssid, password, cached, s);
    assert stored.entries[KEY_WIFI_SSID] == ssid && stored.entries[KEY_WIFI_PASS] == password;
    InitLoadsStoredValues(stored.entries, a, stored.cache);
  }
}
