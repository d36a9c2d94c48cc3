# Satisfactron firmware update manager and device configuration, in Dafny

This project models the over-the-air update manager `OTAManager` of the
Satisfactron voting device and proves properties about it. The manager
exists in two variants:

- the h1 firmware, `satisfactron-h1/ota_update.cpp`, which resolves redirects
  and offers a forced check;
- the earlier proof-of-concept, `poc_v1/ota_update.cpp`.

The project also models the `DeviceConfig` cache of the device id and the
WiFi credentials, which lives in the ESP32's non-volatile storage (NVS).
The two copies of `device_config.cpp` are the same line for line, so one
model covers both.

Modules, one per concern of the firmware:

- `VersionCode` (`version.dfy`) covers the `YY.MM.DD.N` version strings.
  - The scanner is modelled as `sscanf(s, "%d.%d.%d.%d", ...)`: it skips
    white space, takes an optional sign, reads as many digits as there are,
    and needs each literal `.` to come next. It stops at the first mismatch
    and stores only the prefix it converted.
  - The order is lexicographic over the four slots, slot 0 first.
  - h1's `isVersionNewer` is a method over two zero-initialised `int[4]`
    arrays with its comparison loop.
  - poc_v1's routine has uninitialised arrays. Their contents are an
    explicit parameter.
- `ReleaseLocator` (`release.dfy`) strips the `v` from the release tag, builds
  the two download-URL templates, and makes `followRedirect`'s choice.
- `UpdateGate` (`gate.dfy`) is `shouldCheckForUpdate` over 32-bit unsigned
  `millis()` values. Every subtraction wraps modulo 2^32.
- `UpdateEvents` (`events.dfy`) defines the events of a run:
  - the stamp of `lastCheckTime` in `handle`;
  - the release fetch;
  - the redirect GET;
  - the LED hooks;
  - the flash;
  - the restart.
- `OtaH1` and `OtaPoc` (`ota_h1.dfy`, `ota_poc.dfy`) are the two `OTAManager`
  classes.
  - Their fields follow the headers.
  - Each method records its effects in a ghost `trace`.
  - Each method is proved equal to a pure run function: `PerformRun`, or
    `HandleEvents` for `handle`.
  - The properties of hook order, restart and re-fetch are proved as lemmas
    about those functions.
- `DeviceConfiguration` (`device_config.dfy`) has two classes.
  - `Nvs` is the NVS partition: a map from keys to strings, plus a ghost log
    of sets, commits and erases.
  - `DeviceConfig` holds the three cached fields. `Init`, `SetDeviceId` and
    `SetWiFiCredentials` are each proved equal to a pure run function of the
    partition and the driver's answers.
  - The getters are functions that read only the `DeviceConfig` object. Their
    `reads` frame excludes the store, so they cannot touch it.

Inputs that come from outside the modelled code arrive as parameters:

- `millis()`;
- the vote time the vote interrupt sets;
- the HTTP status codes;
- what the JSON parser made of the release document;
- the redirect location;
- the `HTTPUpdateResult`;
- every `esp_err_t` of the NVS driver.

## Model

The getters carry no contract of their own, so they have no row below.
`DeviceConfiguration.DeviceConfig.GetDeviceId`
(satisfactron-h1/device_config.cpp:109-111), `GetWiFiSSID` (:135-137) and
`GetWiFiPassword` (:139-141) each return their cached field. Each reads only
the `DeviceConfig` object, so none of them can touch the store.

The rows below state properties of definitions that have no row of their own.
Each is named here with the source lines it models:

- `VersionCode.Scan`, `ScanFields` and `ScanInt` model the `sscanf("%d.%d.%d.%d")`
  call (satisfactron-h1/ota_update.cpp:129-130).
- `VersionCode.Fill` and `Parse` give h1's zero-initialised slots after that
  call (satisfactron-h1/ota_update.cpp:124-130). `StaleParse` gives poc_v1's
  slots, which start from arbitrary contents (poc_v1/ota_update.cpp:88-92).
- `VersionCode.LexGreater` is the comparison loop
  (satisfactron-h1/ota_update.cpp:136-148). `VersionNewer` and
  `StaleVersionNewer` combine it with the two parses.
- `ReleaseLocator.StripVPrefix` removes one leading `v` from the tag
  (satisfactron-h1/ota_update.cpp:116-119). Its rows are `StripRemovesOneV`,
  `StripDoubleV` and `StripIsRecoverable`.
- `ReleaseLocator.H1DownloadUrl` is h1's `constructDownloadUrl`
  (satisfactron-h1/ota_update.cpp:151-155). `PocDownloadUrl` is poc_v1's
  (poc_v1/ota_update.cpp:103-105). Both are `AssetUrl` with their own asset stem.
- `UpdateGate.ShouldCheck` is `shouldCheckForUpdate`
  (satisfactron-h1/ota_update.cpp:53-70, poc_v1/ota_update.cpp:42-54).
- `OtaH1.UpdateAvailable` is `checkForUpdate`'s decision
  (satisfactron-h1/ota_update.cpp:183-201). `OtaPoc.UpdateAvailable` is poc_v1's
  (poc_v1/ota_update.cpp:107-119).
- `OtaH1.FlashOutcome` is the switch on the `HTTPUpdateResult`
  (satisfactron-h1/ota_update.cpp:240-270). `OtaPoc.FlashOutcome` is poc_v1's
  (poc_v1/ota_update.cpp:142-159).
- `OtaH1.PerformRun` is `performUpdate` (satisfactron-h1/ota_update.cpp:203-271).
  `OtaPoc.PerformRun` is poc_v1's (poc_v1/ota_update.cpp:121-160).
- `OtaH1.CheckEvents` and `HandleEvents` give the events of `checkForUpdate` and
  of `handle` (satisfactron-h1/ota_update.cpp:22-43, 183-201). The `OtaPoc` pair
  does the same for poc_v1/ota_update.cpp:22-32, 107-119.
- `DeviceConfiguration.FlashStart` is `nvs_flash_init` with its
  erase-and-retry (satisfactron-h1/device_config.cpp:17-21).
- `DeviceConfiguration.LoadKey` loads one key, or provisions it when it is
  missing (satisfactron-h1/device_config.cpp:40-58; the Wi-Fi keys at :61-103
  repeat it). `LoadAll` chains the three keys.
- `DeviceConfiguration.InitRun` is the whole of `init`
  (satisfactron-h1/device_config.cpp:16-107).
- `DeviceConfiguration.SetDeviceIdRun` is `setDeviceId`
  (satisfactron-h1/device_config.cpp:113-129). `SetWiFiRun` is
  `setWiFiCredentials` (satisfactron-h1/device_config.cpp:143-171).

| member | source | states |
|---|---|---|
| VersionCode.ScanInto | satisfactron-h1/ota_update.cpp:129-130 | the slots after `sscanf` hold the converted prefix and their old contents beyond it; the count is the number of conversions, or EOF (-1) for blank input |
| VersionCode.SlotsNewer | satisfactron-h1/ota_update.cpp:136-148 | the loop answers true exactly when the first slot vector is lexicographically greater; equal vectors give false |
| VersionCode.IsVersionNewer | satisfactron-h1/ota_update.cpp:124-149 | h1's routine equals the comparison of the zero-filled parses of both strings |
| VersionCode.FirstDifferenceDecides | satisfactron-h1/ota_update.cpp:136-145 | when the slots agree up to k and differ at k, the answer is whether slot k of the first is larger |
| VersionCode.LexIrreflexive | satisfactron-h1/ota_update.cpp:147-148 | no slot vector is greater than itself |
| VersionCode.LexAsymmetric | satisfactron-h1/ota_update.cpp:136-145 | two slot vectors are never each greater than the other |
| VersionCode.LexTransitive | satisfactron-h1/ota_update.cpp:136-145 | the slot order is transitive |
| VersionCode.LexTotal | satisfactron-h1/ota_update.cpp:136-148 | distinct slot vectors are ordered one way or the other |
| VersionCode.NotNewerThanItself | satisfactron-h1/ota_update.cpp:136-148 | `isVersionNewer(v, v)` is false for every string |
| VersionCode.NeverMutuallyNewer | satisfactron-h1/ota_update.cpp:136-148 | no two strings are each newer than the other |
| VersionCode.NewerIsTransitive | satisfactron-h1/ota_update.cpp:136-148 | newer-than is transitive over strings |
| VersionCode.NewerIsTotal | satisfactron-h1/ota_update.cpp:128-148 | two strings are ordered one way or the other exactly when their parses differ |
| VersionCode.ParseZeroFills | satisfactron-h1/ota_update.cpp:128-130 | the parse starts with the scanned fields and every slot the scan did not reach is 0 |
| VersionCode.ParseDotted | satisfactron-h1/ota_update.cpp:129-130 | four dot-separated digit groups parse to their decimal values |
| VersionCode.ParseShortDotted | satisfactron-h1/ota_update.cpp:128-130 | one to three digit groups parse to their values followed by zeros |
| VersionCode.ParseRender | satisfactron-h1/ota_update.cpp:129-130 | round trip: printing four non-negative `int` fields as `a.b.c.d` and parsing gives the fields back |
| VersionCode.BuildIndexDecides | satisfactron-h1/ota_update.cpp:136-145 | 24.06.01.2 is newer than 24.06.01.1, and not the other way round |
| VersionCode.YearDecides | satisfactron-h1/ota_update.cpp:136-145 | 23.12.31.9 is not newer than 24.01.01.0, and 24.01.01.0 is newer than 23.12.31.9 |
| VersionCode.MalformedIsZero | satisfactron-h1/ota_update.cpp:128-130 | "bad-string" scans nothing and compares equal to "0.0.0.0" in both directions |
| VersionCode.TwoFieldsPadded | satisfactron-h1/ota_update.cpp:128-130 | "24.6" compares equal to "24.6.0.0" in both directions |
| VersionCode.IsVersionNewerStale | poc_v1/ota_update.cpp:88-101 | poc_v1's routine equals the comparison of the two scans laid over the arrays' indeterminate contents |
| VersionCode.FullScanIgnoresStale | poc_v1/ota_update.cpp:90-92 | a scan that converts four fields overwrites every slot, whatever the stack held |
| VersionCode.StaleAgreesOnFullScans | poc_v1/ota_update.cpp:88-101 | when both strings scan four fields, poc_v1's answer is h1's answer for any stack contents |
| VersionCode.StaleDecidesShortScan | poc_v1/ota_update.cpp:90-92 | "24.6" against "24.6.0.0" is not newer over zeroed slots but newer when slot 2 held a 5 |
| ReleaseLocator.LatestReleaseVersion | satisfactron-h1/ota_update.cpp:93-121 | "" for a status other than 200 and for a JSON error; otherwise the tag without one leading 'v' |
| ReleaseLocator.AssetUrl | satisfactron-h1/ota_update.cpp:151-155 | the URL is as long as the base, one `v`, the version twice, the asset stem and ".bin" together |
| ReleaseLocator.StripRemovesOneV | satisfactron-h1/ota_update.cpp:116-119 | a tag "v" + x yields exactly x, even when x starts with 'v' |
| ReleaseLocator.StripDoubleV | satisfactron-h1/ota_update.cpp:116-119 | "vv1" yields "v1" |
| ReleaseLocator.StripIsRecoverable | satisfactron-h1/ota_update.cpp:116-119 | the tag is "v" + version, or it is the version itself and does not start with 'v' |
| ReleaseLocator.FoundExactlyWhen | satisfactron-h1/ota_update.cpp:93-121 | a non-empty version is returned exactly when the status is 200, the body parsed and the tag is neither "" nor "v" |
| ReleaseLocator.PrereleaseIgnored | satisfactron-h1/ota_update.cpp:111-121 | the prerelease flag never changes the version returned |
| ReleaseLocator.AssetUrlNamesVersion | satisfactron-h1/ota_update.cpp:151-155 | the URL is the download base, "v", the version, the asset stem, the version again, then ".bin" |
| ReleaseLocator.AssetUrlInjective | satisfactron-h1/ota_update.cpp:151-155 | distinct versions give distinct URLs under one template |
| ReleaseLocator.VariantsDiffer | poc_v1/ota_update.cpp:103-105 | no h1 download URL equals a poc_v1 download URL, whatever the versions |
| ReleaseLocator.FollowRedirect | satisfactron-h1/ota_update.cpp:176-180 | the location on status 200 with a non-empty location, otherwise the URL given, unchanged |
| ReleaseLocator.RedirectNeverEmpty | satisfactron-h1/ota_update.cpp:157-181 | a non-empty URL never resolves to an empty one |
| UpdateGate.WrapSub | satisfactron-h1/ota_update.cpp:57 | `unsigned long` subtraction: adding the difference back gives the minuend modulo 2^32, and without a wrap it is the plain difference |
| UpdateGate.WrapAdd | satisfactron-h1/ota_update.cpp:57 | the sum modulo 2^32, reduced by 2^32 exactly when it overflows |
| UpdateGate.WrapSubAdd | satisfactron-h1/ota_update.cpp:57 | the wrapped difference recovers an elapsed time across the 49.7-day wrap of `millis()` |
| UpdateGate.ElapsedIsTrue | satisfactron-h1/ota_update.cpp:54-57 | for readings less than 2^32 ms apart, the wrapped difference is the real elapsed time |
| UpdateGate.TooSoonCloses | satisfactron-h1/ota_update.cpp:57-60 | the gate is closed while the time since the last check is below the interval |
| UpdateGate.RecentVoteCloses | satisfactron-h1/ota_update.cpp:63-66 | the gate is closed while a recorded vote is more recent than the threshold |
| UpdateGate.NoVoteOpensOnInterval | satisfactron-h1/ota_update.cpp:53-70 | with vote time 0 the gate is open exactly when the elapsed time is at least the interval |
| UpdateGate.QuietAndDueOpens | satisfactron-h1/ota_update.cpp:53-70 | with the interval elapsed and no vote within the threshold (or none recorded), the gate is open |
| UpdateGate.NothingDueRightAfterInit | satisfactron-h1/ota_update.cpp:16-18 | after `init`, no check is due while `millis()` is below 300000 |
| UpdateGate.FiveMinuteBoundary | satisfactron-h1/ota_update.cpp:53-70 | 299999 ms after a check is too soon; 300000 and 300001 ms are due |
| UpdateGate.VoteWindow | satisfactron-h1/ota_update.cpp:62-66 | a vote 9 minutes ago suppresses the check; one 11 minutes ago does not |
| OtaH1.OTAManager.constructor | satisfactron-h1/ota_update.h:6-11 | the global manager before `init`: no version, all times zero, both hooks null, nothing done |
| OtaH1.OTAManager.Init | satisfactron-h1/ota_update.cpp:14-20 | stores the version, sets the last check to 0, the interval to 300000 and the vote threshold to 600000, and changes nothing else |
| OtaH1.OTAManager.SetPreUpdateCallback | satisfactron-h1/ota_update.cpp:45-47 | sets the pre-update hook and nothing else |
| OtaH1.OTAManager.SetPostUpdateCallback | satisfactron-h1/ota_update.cpp:49-51 | sets the post-update hook and nothing else |
| OtaH1.OTAManager.ShouldCheckForUpdate | satisfactron-h1/ota_update.cpp:53-70 | answers the gate predicate over the manager's current times and does not change any state |
| OtaH1.OTAManager.GetLatestReleaseVersion | satisfactron-h1/ota_update.cpp:77-122 | returns the release version for the reply and records one fetch |
| OtaH1.OTAManager.ResolveRedirectOf | satisfactron-h1/ota_update.cpp:157-181 | returns the redirect choice for the answer and records one redirect GET of that URL |
| OtaH1.OTAManager.CheckForUpdate | satisfactron-h1/ota_update.cpp:183-201 | true exactly when a version was fetched and it is newer than the running one; one fetch |
| OtaH1.OTAManager.ForceCheckForUpdate | satisfactron-h1/ota_update.cpp:72-75 | the same answer as the check; it leaves the last-check time alone and never updates |
| OtaH1.OTAManager.PerformUpdate | satisfactron-h1/ota_update.cpp:203-271 | result and events are those of the update run: re-fetch, URL, redirect, pre hook, flash, outcome |
| OtaH1.OTAManager.FinishUpdate | satisfactron-h1/ota_update.cpp:240-270 | FAILED and NO_UPDATES call the post hook and give false; OK restarts and gives true |
| OtaH1.OTAManager.CheckThenUpdate | satisfactron-h1/ota_update.cpp:37-42 | the check, followed by the update run exactly when the check found a newer release |
| OtaH1.OTAManager.Handle | satisfactron-h1/ota_update.cpp:22-43 | stamps the last-check time exactly when the gate is open; the events are nothing for a closed gate, else the stamp followed by the check and, when it found a newer release, the update run |
| OtaH1.CheckAnswer | satisfactron-h1/ota_update.cpp:183-201 | an update is available exactly when the status is 200, the body parsed, the stripped tag is non-empty and it is newer |
| OtaH1.CheckRejectsSameOrOlder | satisfactron-h1/ota_update.cpp:194-200 | a fetched version that is not newer never reports an update |
| OtaH1.FetchFailureRunsNoHooks | satisfactron-h1/ota_update.cpp:206-210 | a failed re-fetch gives false after one fetch and calls no hook |
| OtaH1.PerformResult | satisfactron-h1/ota_update.cpp:206-266 | the update run succeeds exactly when a version was fetched and the flash reported OK |
| OtaH1.FlashesResolvedUrl | satisfactron-h1/ota_update.cpp:212-238 | the run has exactly one flash: the redirect-resolved asset URL with the running version, after the redirect GET; no other flash event occurs |
| OtaH1.PreHookOnceBeforeFlash | satisfactron-h1/ota_update.cpp:216-238 | a set pre hook runs exactly once, after the redirect GET and before the flash |
| OtaH1.PostHookAfterFailedFlash | satisfactron-h1/ota_update.cpp:240-260 | on FAILED or NO_UPDATES: false, no restart, and a set post hook runs exactly once, last, after the flash |
| OtaH1.PreHookBeforePostHook | satisfactron-h1/ota_update.cpp:220-260 | with both hooks set, a failed flash calls the pre hook before the post hook |
| OtaH1.RestartEndsSuccessfulFlash | satisfactron-h1/ota_update.cpp:262-266 | on OK: true, a single restart as the last event, and no post hook |
| OtaH1.PerformIgnoresRunningVersion | satisfactron-h1/ota_update.cpp:206-238 | the update run does not compare with the running version: its result does not depend on it |
| OtaH1.ClosedGateDoesNothing | satisfactron-h1/ota_update.cpp:22-32 | with the gate closed `handle` causes no event |
| OtaH1.StampBeforeFetch | satisfactron-h1/ota_update.cpp:34-37 | with the gate open, the stamp of `lastCheckTime` is the first event, happens once, and comes before the check's fetch |
| OtaH1.HandleUpdatesOnlyWhenNewer | satisfactron-h1/ota_update.cpp:37-42 | past the stamp, `handle` fetches first, and fetches a second time exactly when the check found a newer release |
| OtaH1.PerformFetchesOnce | satisfactron-h1/ota_update.cpp:206-210 | the update run fetches the release exactly once |
| OtaH1.RefetchIsNotRechecked | satisfactron-h1/ota_update.cpp:37-39 | once the check found a newer release, whatever the second fetch names is flashed |
| OtaPoc.OTAManager.constructor | poc_v1/ota_update.h:8-13 | the global manager before `init`: no version, all times zero, both hooks null |
| OtaPoc.OTAManager.Init | poc_v1/ota_update.cpp:14-20 | stores the version, sets the last check to 0, the interval to 300000 and the vote threshold to 600000 |
| OtaPoc.OTAManager.SetPreUpdateCallback | poc_v1/ota_update.cpp:34-36 | sets the pre-update hook and nothing else |
| OtaPoc.OTAManager.SetPostUpdateCallback | poc_v1/ota_update.cpp:38-40 | sets the post-update hook and nothing else |
| OtaPoc.OTAManager.ShouldCheckForUpdate | poc_v1/ota_update.cpp:42-54 | answers the same gate predicate as h1 and does not change any state |
| OtaPoc.OTAManager.GetLatestReleaseVersion | poc_v1/ota_update.cpp:56-86 | returns the release version for the reply and records one fetch |
| OtaPoc.OTAManager.CheckForUpdate | poc_v1/ota_update.cpp:107-119 | true exactly when a version was fetched and poc_v1's comparison, over the given stack contents, finds it newer |
| OtaPoc.OTAManager.PerformUpdate | poc_v1/ota_update.cpp:121-160 | result and events are those of the poc_v1 update run: re-fetch, template URL, pre hook, flash, outcome |
| OtaPoc.OTAManager.FinishUpdate | poc_v1/ota_update.cpp:142-159 | FAILED and NO_UPDATES call the post hook and give false; OK gives true with nothing further |
| OtaPoc.OTAManager.CheckThenUpdate | poc_v1/ota_update.cpp:28-31 | the check, followed by the update run exactly when the check found a newer release |
| OtaPoc.OTAManager.Handle | poc_v1/ota_update.cpp:22-32 | stamps the last-check time exactly when the gate is open; the events are nothing for a closed gate, else the stamp followed by the check and, when it found a newer release, the update run |
| OtaPoc.CheckAgreesWithH1OnFullVersions | poc_v1/ota_update.cpp:107-119 | when both versions scan four fields, poc_v1's check answers as h1's does, whatever the stack held |
| OtaPoc.FetchFailureRunsNoHooks | poc_v1/ota_update.cpp:122-123 | a failed re-fetch gives false after one fetch and calls no hook |
| OtaPoc.FlashesTemplateUrl | poc_v1/ota_update.cpp:125-140 | the poc_v1 template URL with the running version is flashed, every flash event is that one, and no redirect is resolved |
| OtaPoc.PreHookOnceBeforeFlash | poc_v1/ota_update.cpp:129-140 | a set pre hook runs exactly once and before the flash |
| OtaPoc.PostHookAfterFailedFlash | poc_v1/ota_update.cpp:142-151 | on FAILED or NO_UPDATES: false, and a set post hook runs exactly once, last, after the flash |
| OtaPoc.SuccessHasNoPostHookNoRestart | poc_v1/ota_update.cpp:153-156 | on OK: true, the flash is the last event, with no post hook and no restart of the manager's own |
| OtaPoc.PerformResult | poc_v1/ota_update.cpp:121-160 | the update run succeeds exactly when a version was fetched and the flash reported OK |
| OtaPoc.StampBeforeFetch | poc_v1/ota_update.cpp:22-28 | a closed gate does nothing; with the gate open, the stamp of `lastCheckTime` is the first event, happens once, and comes before the check's fetch |
| OtaPoc.HandleUpdatesOnlyWhenNewer | poc_v1/ota_update.cpp:28-31 | past the stamp, `handle` fetches first, and fetches again exactly when an update was found |
| OtaPoc.PerformFetchesOnce | poc_v1/ota_update.cpp:122-123 | the update run fetches the release exactly once |
| DeviceConfiguration.Nvs.Erase | satisfactron-h1/device_config.cpp:19 | `nvs_flash_erase()` wipes the partition and is logged |
| DeviceConfiguration.Nvs.GetStrSize | satisfactron-h1/device_config.cpp:40-42 | the size query answers OK with the length plus the NUL for a stored key, "not found" with size 0 otherwise |
| DeviceConfiguration.Nvs.GetStr | satisfactron-h1/device_config.cpp:44-46 | the read into the buffer answers OK with the stored string |
| DeviceConfiguration.Nvs.SetStr | satisfactron-h1/device_config.cpp:52-53 | `nvs_set_str` returns the driver's answer, stores the value only on OK, and is logged either way |
| DeviceConfiguration.Nvs.Commit | satisfactron-h1/device_config.cpp:120 | `nvs_commit` returns the driver's answer and is logged; the partition is unchanged |
| DeviceConfiguration.DeviceConfig.constructor | satisfactron-h1/device_config.h:12-14 | the global object before `init`: three empty strings |
| DeviceConfiguration.DeviceConfig.StartFlash | satisfactron-h1/device_config.cpp:17-21 | the flash start-up: erase and init again only after "no free pages" or "new version found" |
| DeviceConfiguration.DeviceConfig.LoadOrProvision | satisfactron-h1/device_config.cpp:39-57 | one key: a stored value is loaded and nothing is set; otherwise the default is cached and set, and committed when the set succeeds |
| DeviceConfiguration.DeviceConfig.LoadKeys | satisfactron-h1/device_config.cpp:38-103 | the three keys in turn, with the SSID and password defaults written only when non-empty |
| DeviceConfiguration.DeviceConfig.Init | satisfactron-h1/device_config.cpp:16-107 | result, cache, partition and store calls are those of the `init` run |
| DeviceConfiguration.DeviceConfig.SetDeviceId | satisfactron-h1/device_config.cpp:113-129 | result, cache, partition and store calls are those of the `setDeviceId` run |
| DeviceConfiguration.DeviceConfig.SetWiFiCredentials | satisfactron-h1/device_config.cpp:143-171 | result, cache, partition and store calls are those of the `setWiFiCredentials` run |
| DeviceConfiguration.KeysDistinct | satisfactron-h1/device_config.cpp:6-8 | the three NVS keys are pairwise different |
| DeviceConfiguration.InitSucceedsWhenFlashReady | satisfactron-h1/device_config.cpp:16-107 | `init` returns true exactly when the flash is ready after at most one erase and retry |
| DeviceConfiguration.FlashFailureKeepsCache | satisfactron-h1/device_config.cpp:17-26 | a flash that stays unusable gives false, leaves the cache as it was and sets nothing |
| DeviceConfiguration.EraseOnlyForFullOrNewLayout | satisfactron-h1/device_config.cpp:17-21 | the partition is erased exactly when the first init reports no free pages or a new layout |
| DeviceConfiguration.OpenFailureUsesDefaults | satisfactron-h1/device_config.cpp:29-36 | an unopenable namespace gives true and the three defaults, and nothing is set |
| DeviceConfiguration.InitLoadsStoredValues | satisfactron-h1/device_config.cpp:17-103 | once the flash is ready, with or without an erase, and the namespace is open, each cached field is the value the partition holds after start-up when its key is present, else its default |
| DeviceConfiguration.InitProvisionsMissingKeys | satisfactron-h1/device_config.cpp:17-103 | once the flash is ready, with or without an erase, and every set succeeds, each key ends up stored with the value that was cached |
| DeviceConfiguration.InitAfterEraseProvisionsDefaults | satisfactron-h1/device_config.cpp:17-103 | after an erase and a successful retry, `init` succeeds and caches the three defaults. When every set succeeds it stores exactly those three and logs the erase, then one set and one commit per key |
| DeviceConfiguration.InitOnProvisionedStore | satisfactron-h1/device_config.cpp:42-49 | with all keys stored, `init` caches them and makes no store call that writes |
| DeviceConfiguration.InitIdempotent | poc_v1/device_config.cpp:42-57 | a second `init` that needs no erase, after a healthy first one (which may have erased), caches the same values, leaves the partition as it was and sets nothing |
| DeviceConfiguration.SetDeviceIdResult | satisfactron-h1/device_config.cpp:113-129 | true exactly when open, set and commit succeed; the id changes exactly then |
| DeviceConfiguration.SetWiFiResult | satisfactron-h1/device_config.cpp:143-171 | true exactly when open, both sets and the commit succeed; SSID and password change together, only then, and the id never changes |
| DeviceConfiguration.FailedSettersKeepCache | poc_v1/device_config.cpp:113-171 | a failed setter, whatever failed, leaves every cached field unchanged |
| DeviceConfiguration.PasswordWrittenAfterSsidFailure | satisfactron-h1/device_config.cpp:150-156 | the password is still written after the SSID set fails, so the partition can hold a new password beside the old SSID |
| DeviceConfiguration.SetDeviceIdThenInit | poc_v1/device_config.cpp:113-129 | round trip: after a successful `setDeviceId(x)`, `init` on the same store caches x |
| DeviceConfiguration.SetWiFiThenInit | poc_v1/device_config.cpp:143-171 | round trip: after a successful `setWiFiCredentials(s, p)`, `init` on the same store caches s and p |

## Left out

- Serial logging is not modelled because it is output only and changes no
  state. This covers every `Serial.printf` and `println`, `printDeviceId` and
  `printWiFiConfig`. It also covers h1's second reading of `millis()` and the
  elapsed times it prints when the gate is closed.
- The HTTP client, `WiFiClientSecure` with `setInsecure`, ArduinoJson and
  `HTTPUpdate` are foreign libraries, so they are not modelled. Their answers
  are parameters:
  - the status code and what the JSON parser made of the body;
  - the redirect status and location;
  - the update result.
  Request headers, timeouts, TLS and the JSON document sizes lie inside those
  libraries.
- Flash writing, `setLedPin`, `delay(3000)` and the device reboot are not
  modelled. h1's `ESP.restart()` is only a final `Restart` event. poc_v1
  leaves the reboot to the update library, so no event is recorded for it.
- The hooks are event-only: the LED code they run is not part of this model,
  and a hook is named by a number.
- `millis()` and the vote time are plain parameters, and the model has no
  concurrency. The source reads the `volatile` vote time twice in the gate's
  second condition (satisfactron-h1/ota_update.cpp:63,
  poc_v1/ota_update.cpp:49), so the vote interrupt can change it between the
  two reads. The model has the gate read it once, so such a change is not
  represented.
- In both variants, `handle` reads `millis()` twice: once inside the gate and once for
  the stamp. The model passes these as two values, `now` and `stampNow`.
- VersionCode.ParseRender: stated only for fields up to `INT32_MAX`. A `%d`
  overflow in `sscanf` is undefined behaviour in C, so the scanner keeps the
  value unbounded instead of modelling a particular wrap.
- `VersionCode.ScanInto` returns the count that `sscanf` returns. h1 reads it
  only to log it (satisfactron-h1/ota_update.cpp:132-133), and poc_v1 discards
  it.
- The h1 header gives the hook pointers no initialiser. The constructor
  assumes the zero initialisation of a global object; poc_v1 writes
  `= nullptr` explicitly.
- The value after the `switch` on the update result is not modelled
  separately: every `HTTPUpdateResult` value has its own case, so the model
  cannot reach it.
- The prerelease flag is read but never used to decide anything. It is a
  field of the JSON answer, and `ReleaseLocator.PrereleaseIgnored` proves it
  has no effect.
- `ESP_ERROR_CHECK` around `nvs_flash_erase` aborts the device on failure.
  The model assumes the erase succeeds.
- DeviceConfiguration.Nvs.GetStr: assumes the second `nvs_get_str`, the one
  into the buffer, succeeds. If it failed, the firmware would keep the cached
  field as it was; the model does not cover that case. The `malloc` and
  `free` of the buffer are not modelled either.
- The model has `nvs_get_str` answer "not found" or return the stored string.
  Type mismatches and other read errors of the driver are not modelled.
- A `String` holding a NUL character is truncated at the NUL when it is
  written through `c_str()`. The model's strings have no such truncation.
- In the model, `nvs_set_str` changes the partition when it returns OK, and
  `nvs_commit` records only the call and its answer. Whether writes that were
  never committed survive a power loss is not modelled.
- `nvs_close` is not modelled, because it changes nothing the model sees.

## Findings

| source | as written | input that shows it | evidently intended | confidence | as-written member | corrected member |
|---|---|---|---|---|---|---|
| poc_v1/ota_update.cpp:90-92 | `int v1Parts[4], v2Parts[4];` are never initialised, and `sscanf` fills only the fields it converts, so a short version string is compared against leftover stack contents | "24.6" against "24.6.0.0" with a 5 left in slot 2 of `v1Parts`: reported newer, though over zeroed slots it is not | zero-initialise both arrays as h1 does (`= {0}`), so that unparsed fields count as 0 and the answer depends only on the two strings | not executed | VersionCode.StaleDecidesShortScan | VersionCode.TwoFieldsPadded |

h1's zero-initialised routine is the corrected one. `VersionCode.IsVersionNewer`
runs it, and the order lemmas (`VersionCode.NotNewerThanItself`,
`VersionCode.NeverMutuallyNewer`, `VersionCode.NewerIsTransitive`,
`VersionCode.NewerIsTotal`) are proved about it. `OtaPoc` models poc_v1 as it
is written, so the stack contents stay parameters of its check.
`OtaPoc.CheckAgreesWithH1OnFullVersions` shows that the two comparisons
agree whenever both versions scan four fields.
