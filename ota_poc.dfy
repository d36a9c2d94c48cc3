/**
 * The poc_v1 `OTAManager`, the earlier variant of the manager: the same
 * gate and release lookup, but version slots that are not initialised,
 * another asset name, no redirect step, no forced check, and no restart of
 * its own (the update library's default reboots the device by itself).
 */
module OtaPoc {
  import opened VersionCode
  import opened ReleaseLocator
  import opened UpdateGate
  import opened UpdateEvents

  /**
   * Everything the outside world answers during one `handle`, and what the
   * stack held where `isVersionNewer` puts its two uninitialised arrays.
   */
  datatype Network = Network(
    checkReply: ReleaseReply,    // the fetch in `checkForUpdate`
    updateReply: ReleaseReply,   // the second fetch, in `performUpdate`
    flash: UpdateResult,         // `httpUpdate.update`
    stale1: Parts,               // indeterminate contents of `v1Parts`
    stale2: Parts)               // indeterminate contents of `v2Parts`

  /**
   * The fields `init` and the setters write, apart from `lastCheckTime`.
   * `OtaH1` declares the same datatype, and the same gate and setter methods:
   * the firmware keeps two copies of the manager, and each module models one.
   */
  datatype Settings = Settings(
    currentVersion: string, checkInterval: uint32, noVoteTimeThreshold: uint32,
    preUpdateCallback: Callback, postUpdateCallback: Callback)

  // ---------------------------------------------------------------------
  // What a run does, as functions of the state and the answers
  // ---------------------------------------------------------------------

  /** `checkForUpdate`'s answer, given what the stack held. */
  predicate UpdateAvailable(currentVersion: string, reply: ReleaseReply, stale1: Parts, stale2: Parts) {
    var latest := LatestReleaseVersion(reply);
    latest != "" && StaleVersionNewer(latest, currentVersion, stale1, stale2)
  }

  /** The end of `performUpdate`, after `update` returned: no restart here. */
  function FlashOutcome(post: Callback, flash: UpdateResult): Run {
    match flash
    case HttpUpdateFailed => Run(false, PostHookCall(post))
    case HttpUpdateNoUpdates => Run(false, PostHookCall(post))
    case HttpUpdateOk => Run(true, [])
  }

  /** `performUpdate`: re-fetch, build the URL, pre hook, flash that URL, then the outcome. */
  function PerformRun(currentVersion: string, pre: Callback, post: Callback,
                      reply: ReleaseReply, flash: UpdateResult): Run
  {
    var latest := LatestReleaseVersion(reply);
    if latest == "" then Run(false, [FetchRelease])
    else
      var outcome := FlashOutcome(post, flash);
      Run(outcome.result,
          [FetchRelease] + PreHookCall(pre) + [Flash(PocDownloadUrl(latest), currentVersion)] + outcome.events)
  }

  /** `handle` after the stamp: the check, then `performUpdate` only if it found an update. */
  function CheckEvents(s: Settings, net: Network): seq<Event> {
    if UpdateAvailable(s.currentVersion, net.checkReply, net.stale1, net.stale2) then
      [FetchRelease] + PerformRun(s.currentVersion, s.preUpdateCallback, s.postUpdateCallback,
                                  net.updateReply, net.flash).events
    else [FetchRelease]
  }

  /** `handle`: nothing when the gate is closed; otherwise the stamp, then the check and update. */
  function HandleEvents(gateOpen: bool, stampNow: uint32, s: Settings, net: Network): seq<Event> {
    if !gateOpen then [] else [Stamp(stampNow as int)] + CheckEvents(s, net)
  }

  // ---------------------------------------------------------------------
  // The manager
  // ---------------------------------------------------------------------

  class OTAManager {
    var currentVersion: string
    var lastCheckTime: uint32
    var checkInterval: uint32
    var noVoteTimeThreshold: uint32
    var preUpdateCallback: Callback
    var postUpdateCallback: Callback
    ghost var trace: seq<Event>

    ghost function CurrentSettings(): Settings
      reads this
    {
      Settings(currentVersion, checkInterval, noVoteTimeThreshold, preUpdateCallback, postUpdateCallback)
    }

    /** The global manager before `init`: zero fields, and both hooks `= nullptr` as declared. */
    constructor ()
      ensures currentVersion == "" && lastCheckTime == 0 && checkInterval == 0 && noVoteTimeThreshold == 0
      ensures preUpdateCallback == NullCallback && postUpdateCallback == NullCallback
      ensures trace == []
    {
      currentVersion := "";
      lastCheckTime := 0;
      checkInterval := 0;
      noVoteTimeThreshold := 0;
      preUpdateCallback := NullCallback;
      postUpdateCallback := NullCallback;
      trace := [];
    }

    method Init(version: string)
      modifies this`currentVersion, this`lastCheckTime, this`checkInterval, this`noVoteTimeThreshold
      ensures currentVersion == version && lastCheckTime == 0
      ensures checkInterval == CHECK_INTERVAL && noVoteTimeThreshold == NO_VOTE_TIME_THRESHOLD
    {
      currentVersion := version;
      lastCheckTime := 0;
      checkInterval := 5 * 60 * 1000;
      noVoteTimeThreshold := 10 * 60 * 1000;
    }

    method SetPreUpdateCallback(callback: Callback)
      modifies this`preUpdateCallback
      ensures preUpdateCallback == callback
    {
      preUpdateCallback := callback;
    }

    method SetPostUpdateCallback(callback: Callback)
      modifies this`postUpdateCallback
      ensures postUpdateCallback == callback
    {
      postUpdateCallback := callback;
    }

    /** `shouldCheckForUpdate` at `millis() == now`: the same condition as h1's. */
    method ShouldCheckForUpdate(now: uint32, lastAnyVoteTime: uint32) returns (due: bool)
      ensures due == ShouldCheck(now, lastCheckTime, checkInterval, lastAnyVoteTime, noVoteTimeThreshold)
    {
      if WrapSub(now, lastCheckTime) < checkInterval {
        return false;
      }
      if lastAnyVoteTime > 0 && WrapSub(now, lastAnyVoteTime) < noVoteTimeThreshold {
        return false;
      }
      return true;
    }

    /** `getLatestReleaseVersion`, with the request's answer given. */
    method GetLatestReleaseVersion(reply: ReleaseReply) returns (version: string)
      modifies this`trace
      ensures version == LatestReleaseVersion(reply)
      ensures trace == old(trace) + [FetchRelease]
    {
      trace := trace + [FetchRelease];
      if reply.httpCode != HTTP_CODE_OK {
        return "";
      }
      if reply.body.JsonError? {
        return "";
      }
      var tagName := reply.body.tagName;
      if |tagName| > 0 && tagName[0] == 'v' {
        tagName := tagName[1..];
      }
      return tagName;
    }

    method CheckForUpdate(reply: ReleaseReply, stale1: Parts, stale2: Parts) returns (found: bool)
      modifies this`trace
      ensures found == UpdateAvailable(currentVersion, reply, stale1, stale2)
      ensures trace == old(trace) + [FetchRelease]
    {
      var latestVersion := GetLatestReleaseVersion(reply);
      if |latestVersion| == 0 {
        return false;
      }
      found := IsVersionNewerStale(latestVersion, currentVersion, stale1, stale2);
    }

    method PerformUpdate(reply: ReleaseReply, flash: UpdateResult) returns (ok: bool)
      modifies this`trace
      ensures var run := PerformRun(currentVersion, preUpdateCallback, postUpdateCallback, reply, flash);
        ok == run.result && trace == old(trace) + run.events
    {
      var latestVersion := GetLatestReleaseVersion(reply);
      if |latestVersion| == 0 {
        return false;
      }
      var downloadUrl := PocDownloadUrl(latestVersion);
      if preUpdateCallback.Callback? {
        trace := trace + [PreUpdateHook(preUpdateCallback.id)];
      }
      trace := trace + [Flash(downloadUrl, currentVersion)];
      ok := FinishUpdate(flash);
    }

    /** The `switch (result)` at the end of `performUpdate`. */
    method FinishUpdate(flash: UpdateResult) returns (ok: bool)
      modifies this`trace
      ensures ok == FlashOutcome(postUpdateCallback, flash).result
      ensures trace == old(trace) + FlashOutcome(postUpdateCallback, flash).events
    {
      match flash {
        case HttpUpdateFailed =>
          if postUpdateCallback.Callback? {
            trace := trace + [PostUpdateHook(postUpdateCallback.id)];
          }
          return false;
        case HttpUpdateNoUpdates =>
          if postUpdateCallback.Callback? {
            trace := trace + [PostUpdateHook(postUpdateCallback.id)];
          }
          return false;
        case HttpUpdateOk =>
          return true;
      }
    }

    /** The body of `handle` past the gate: check, and update when the check says so. */
    method CheckThenUpdate(net: Network)
      modifies this`trace
      ensures trace == old(trace) + CheckEvents(CurrentSettings(), net)
    {
      ghost var before := trace;
      var found := CheckForUpdate(net.checkReply, net.stale1, net.stale2);
      if found {
        ghost var middle := trace;
        var _ := PerformUpdate(net.updateReply, net.flash);
        HandleAfterUpdate(CurrentSettings(), net, before, middle, trace);
      } else {
        HandleAfterCheck(CurrentSettings(), net, before, trace);
      }
    }

    /**
     * `handle`: `now` is the `millis()` the gate reads and `stampNow` the one
     * stored in `lastCheckTime` right after.
     */
    method Handle(now: uint32, stampNow: uint32, lastAnyVoteTime: uint32, net: Network)
      modifies this`lastCheckTime, this`trace
      ensures var gateOpen := ShouldCheck(now, old(lastCheckTime), checkInterval, lastAnyVoteTime, noVoteTimeThreshold);
        lastCheckTime == (if gateOpen then stampNow else old(lastCheckTime)) &&
        trace == old(trace) + HandleEvents(gateOpen, stampNow, CurrentSettings(), net)
    {
      var due := ShouldCheckForUpdate(now, lastAnyVoteTime);
      if !due {
        return;
      }
      lastCheckTime := stampNow;
      ghost var before := trace;
      trace := trace + [Stamp(stampNow as int)];
      ghost var middle := trace;
      CheckThenUpdate(net);
      HandleAfterStamp(stampNow, CurrentSettings(), net, before, middle, trace);
    }
  }

  lemma HandleAfterStamp(stampNow: uint32, s: Settings, net: Network,
                         before: seq<Event>, middle: seq<Event>, after: seq<Event>)
    requires middle == before + [Stamp(stampNow as int)]
    requires after == middle + CheckEvents(s, net)
    ensures after == before + HandleEvents(true, stampNow, s, net)
  {
  }

  lemma HandleAfterUpdate(s: Settings, net: Network, before: seq<Event>, middle: seq<Event>, after: seq<Event>)
    requires UpdateAvailable(s.currentVersion, net.checkReply, net.stale1, net.stale2)
    requires middle == before + [FetchRelease]
    requires after == middle + PerformRun(s.currentVersion, s.preUpdateCallback, s.postUpdateCallback,
                                          net.updateReply, net.flash).events
    ensures after == before + CheckEvents(s, net)
  {
  }

  lemma HandleAfterCheck(s: Settings, net: Network, before: seq<Event>, after: seq<Event>)
    requires !UpdateAvailable(s.currentVersion, net.checkReply, net.stale1, net.stale2)
    requires after == before + [FetchRelease]
    ensures after == before + CheckEvents(s, net)
  {
  }

  // ---------------------------------------------------------------------
  // Properties of the runs
  // ---------------------------------------------------------------------

  /**
   * When the release and the running version both scan four fields, the
   * check is h1's check: the stack contents do not matter.
   */
  lemma CheckAgreesWithH1OnFullVersions(currentVersion: string, reply: ReleaseReply, stale1: Parts, stale2: Parts)
    requires |Scan(LatestReleaseVersion(reply))| == 4 && |Scan(currentVersion)| == 4
    ensures UpdateAvailable(currentVersion, reply, stale1, stale2) <==>
              LatestReleaseVersion(reply) != "" && VersionNewer(LatestReleaseVersion(reply), currentVersion)
  {
    StaleAgreesOnFullScans(LatestReleaseVersion(reply), currentVersion, stale1, stale2);
  }

  /** A failed re-fetch ends the run: false, one fetch, no hook. */
  lemma FetchFailureRunsNoHooks(cur: string, pre: Callback, post: Callback, reply: ReleaseReply, flash: UpdateResult)
    requires LatestReleaseVersion(reply) == ""
    ensures var run := PerformRun(cur, pre, post, reply, flash);
      !run.result && run.events == [FetchRelease] && NoHooks(run.events)
  {
  }

  /** The asset flashed is the poc_v1 template's, with no redirect step. */
  lemma FlashesTemplateUrl(cur: string, pre: Callback, post: Callback, reply: ReleaseReply, flash: UpdateResult)
    requires LatestReleaseVersion(reply) != ""
    ensures var events := PerformRun(cur, pre, post, reply, flash).events;
      Flash(PocDownloadUrl(LatestReleaseVersion(reply)), cur) in events &&
      (forall i :: 0 <= i < |events| && events[i].Flash? ==> events[i] == Flash(PocDownloadUrl(LatestReleaseVersion(reply)), cur)) &&
      forall i :: 0 <= i < |events| ==> !events[i].ResolveRedirect?
  {
    var events := PerformRun(cur, pre, post, reply, flash).events;
    var head := [FetchRelease] + PreHookCall(pre);
    assert events == head + [Flash(PocDownloadUrl(LatestReleaseVersion(reply)), cur)] + FlashOutcome(post, flash).events;
    assert events[|head|] == Flash(PocDownloadUrl(LatestReleaseVersion(reply)), cur);
  }

  /** The pre hook, when set, runs exactly once and before the flash. */
  lemma PreHookOnceBeforeFlash(cur: string, pre: Callback, post: Callback, reply: ReleaseReply, flash: UpdateResult)
    requires LatestReleaseVersion(reply) != "" && pre.Callback?
    ensures var url := PocDownloadUrl(LatestReleaseVersion(reply));
      var events := PerformRun(cur, pre, post, reply, flash).events;
      Count(events, PreUpdateHook(pre.id)) == 1 && Before(events, PreUpdateHook(pre.id), Flash(url, cur))
  {
    var url := PocDownloadUrl(LatestReleaseVersion(reply));
    var events := PerformRun(cur, pre, post, reply, flash).events;
    var hook := PreUpdateHook(pre.id);
    var tail := [Flash(url, cur)] + FlashOutcome(post, flash).events;
    assert events == [FetchRelease, hook] + tail;
    CountAppend([FetchRelease, hook], tail, hook);
    assert hook !in tail;
    assert events[1] == hook && events[2] == Flash(url, cur);
  }

  /** FAILED and NO_UPDATES: false, and the post hook, when set, runs once, last, after the flash. */
  lemma PostHookAfterFailedFlash(cur: string, pre: Callback, post: Callback, reply: ReleaseReply, flash: UpdateResult)
    requires LatestReleaseVersion(reply) != "" && flash != HttpUpdateOk
    ensures var url := PocDownloadUrl(LatestReleaseVersion(reply));
      var run := PerformRun(cur, pre, post, reply, flash);
      !run.result && Restart !in run.events &&
      (post.NullCallback? ==> NoPostHook(run.events)) &&
      (post.Callback? ==>
        Count(run.events, PostUpdateHook(post.id)) == 1 &&
        run.events[|run.events| - 1] == PostUpdateHook(post.id) &&
        Before(run.events, Flash(url, cur), PostUpdateHook(post.id)))
  {
    var url := PocDownloadUrl(LatestReleaseVersion(reply));
    var head := [FetchRelease] + PreHookCall(pre) + [Flash(url, cur)];
    assert PerformRun(cur, pre, post, reply, flash).events == head + PostHookCall(post);
    assert NoPostHook(head);
    if post.Callback? {
      var hook := PostUpdateHook(post.id);
      CountAppend(head, [hook], hook);
      BeforeAcross(head, [hook], Flash(url, cur), hook);
    } else {
      assert head + PostHookCall(post) == head;
    }
  }

  /** OK: true, with neither the post hook nor a restart of the manager's own. */
  lemma SuccessHasNoPostHookNoRestart(cur: string, pre: Callback, post: Callback, reply: ReleaseReply)
    requires LatestReleaseVersion(reply) != ""
    ensures var run := PerformRun(cur, pre, post, reply, HttpUpdateOk);
      run.result && NoPostHook(run.events) && Restart !in run.events &&
      run.events[|run.events| - 1] == Flash(PocDownloadUrl(LatestReleaseVersion(reply)), cur)
  {
    var head := [FetchRelease] + PreHookCall(pre) + [Flash(PocDownloadUrl(LatestReleaseVersion(reply)), cur)];
    assert PerformRun(cur, pre, post, reply, HttpUpdateOk).events == head;
  }

  /** The run succeeds exactly when a version was fetched and the flash reported OK. */
  lemma PerformResult(cur: string, pre: Callback, post: Callback, reply: ReleaseReply, flash: UpdateResult)
    ensures PerformRun(cur, pre, post, reply, flash).result <==>
              LatestReleaseVersion(reply) != "" && flash == HttpUpdateOk
  {
  }

  /**
   * A closed gate does nothing; an open gate stamps `lastCheckTime` once,
   * first, before the check's fetch.
   */
  lemma StampBeforeFetch(stampNow: uint32, s: Settings, net: Network)
    ensures HandleEvents(false, stampNow, s, net) == []
    ensures var events := HandleEvents(true, stampNow, s, net);
      events[0] == Stamp(stampNow as int) && Count(events, Stamp(stampNow as int)) == 1 &&
      Before(events, Stamp(stampNow as int), FetchRelease)
  {
    var check := CheckEvents(s, net);
    CheckHasNoStamp(s, net);
    CountAppend([Stamp(stampNow as int)], check, Stamp(stampNow as int));
    assert check[0] == FetchRelease;
    BeforeAcross([Stamp(stampNow as int)], check, Stamp(stampNow as int), FetchRelease);
  }

  lemma CheckHasNoStamp(s: Settings, net: Network)
    ensures forall i :: 0 <= i < |CheckEvents(s, net)| ==> !CheckEvents(s, net)[i].Stamp?
  {
    var events := CheckEvents(s, net);
    if UpdateAvailable(s.currentVersion, net.checkReply, net.stale1, net.stale2) {
      var run := PerformRun(s.currentVersion, s.preUpdateCallback, s.postUpdateCallback, net.updateReply, net.flash);
      PerformHasNoStamp(s.currentVersion, s.preUpdateCallback, s.postUpdateCallback, net.updateReply, net.flash);
      assert events == [FetchRelease] + run.events;
      forall i | 0 <= i < |events| ensures !events[i].Stamp? {
        if i > 0 { assert events[i] == run.events[i - 1]; }
      }
    }
  }

  lemma PerformHasNoStamp(cur: string, pre: Callback, post: Callback, reply: ReleaseReply, flash: UpdateResult)
    ensures var events := PerformRun(cur, pre, post, reply, flash).events;
      forall i :: 0 <= i < |events| ==> !events[i].Stamp?
  {
    var latest := LatestReleaseVersion(reply);
    if latest != "" {
      var head := [FetchRelease] + PreHookCall(pre) + [Flash(PocDownloadUrl(latest), cur)];
      var tail := FlashOutcome(post, flash).events;
      var events := PerformRun(cur, pre, post, reply, flash).events;
      assert events == head + tail;
      forall i | 0 <= i < |events| ensures !events[i].Stamp? {
        if i < |head| { assert events[i] == head[i]; } else { assert events[i] == tail[i - |head|]; }
      }
    }
  }

  /**
   * Past the stamp: one fetch for the check; `performUpdate` follows exactly
   * when the check found a newer release.
   */
  lemma HandleUpdatesOnlyWhenNewer(s: Settings, net: Network)
    ensures var events := CheckEvents(s, net);
      var available := UpdateAvailable(s.currentVersion, net.checkReply, net.stale1, net.stale2);
      events[0] == FetchRelease &&
      (Count(events, FetchRelease) == 2 <==> available) &&
      (!available ==> events == [FetchRelease])
  {
    var events := CheckEvents(s, net);
    if UpdateAvailable(s.currentVersion, net.checkReply, net.stale1, net.stale2) {
      var run := PerformRun(s.currentVersion, s.preUpdateCallback, s.postUpdateCallback, net.updateReply, net.flash);
      assert events == [FetchRelease] + run.events;
      CountAppend([FetchRelease], run.events, FetchRelease);
      PerformFetchesOnce(s.currentVersion, s.preUpdateCallback, s.postUpdateCallback, net.updateReply, net.flash);
    }
  }

  lemma PerformFetchesOnce(cur: string, pre: Callback, post: Callback, reply: ReleaseReply, flash: UpdateResult)
    ensures Count(PerformRun(cur, pre, post, reply, flash).events, FetchRelease) == 1
  {
    var events := PerformRun(cur, pre, post, reply, flash).events;
    if LatestReleaseVersion(reply) != "" {
      assert events == [FetchRelease] + events[1..];
      CountAppend([FetchRelease], events[1..], FetchRelease);
      assert FetchRelease !in events[1..];
    }
  }
}
