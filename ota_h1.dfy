/**
 * The h1 `OTAManager`: a periodic, vote-aware check for a newer release on
 * GitHub and, when one is found, a download-and-flash run framed by the LED
 * hooks and followed by a restart.
 *
 * `millis()`, the vote time set by the vote interrupt, and every answer of
 * the network and of the flashing library are parameters. The ghost `trace`
 * records what a run does to the outside world.
 */
module OtaH1 {
  import opened VersionCode
  import opened ReleaseLocator
  import opened UpdateGate
  import opened UpdateEvents

  /** Everything the outside world answers during one `handle`. */
  datatype Network = Network(
    checkReply: ReleaseReply,    // the fetch in `checkForUpdate`
    updateReply: ReleaseReply,   // the second fetch, in `performUpdate`
    redirect: RedirectReply,     // the GET in `followRedirect`
    flash: UpdateResult)         // `httpUpdate.update`

  /**
   * The fields `init` and the setters write, apart from `lastCheckTime`.
   * `OtaPoc` declares the same datatype, and the same gate and setter methods:
   * the firmware keeps two copies of the manager, and each module models one.
   */
  datatype Settings = Settings(
    currentVersion: string, checkInterval: uint32, noVoteTimeThreshold: uint32,
    preUpdateCallback: Callback, postUpdateCallback: Callback)

  // ---------------------------------------------------------------------
  // What a run does, as functions of the state and the answers
  // ---------------------------------------------------------------------

  /** `checkForUpdate`'s answer: a release was found and it is newer than the running version. */
  predicate UpdateAvailable(currentVersion: string, reply: ReleaseReply) {
    var latest := LatestReleaseVersion(reply);
    latest != "" && VersionNewer(latest, currentVersion)
  }

  /** The end of `performUpdate`, after `update` returned. */
  function FlashOutcome(post: Callback, flash: UpdateResult): Run {
    match flash
    case HttpUpdateFailed => Run(false, PostHookCall(post))
    case HttpUpdateNoUpdates => Run(false, PostHookCall(post))
    case HttpUpdateOk => Run(true, [Restart])
  }

  /** `performUpdate`: re-fetch, build the URL, resolve it, pre hook, flash, then the outcome. */
  function PerformRun(currentVersion: string, pre: Callback, post: Callback,
                      reply: ReleaseReply, redirect: RedirectReply, flash: UpdateResult): Run
  {
    var latest := LatestReleaseVersion(reply);
    if latest == "" then Run(false, [FetchRelease])
    else
      var url := H1DownloadUrl(latest);
      var finalUrl := FollowRedirect(url, redirect.httpCode, redirect.location);
      var outcome := FlashOutcome(post, flash);
      Run(outcome.result,
          [FetchRelease, ResolveRedirect(url)] + PreHookCall(pre) + [Flash(finalUrl, currentVersion)] + outcome.events)
  }

  /** `handle` after the stamp: the check, then `performUpdate` only if it found an update. */
  function CheckEvents(s: Settings, net: Network): seq<Event> {
    if UpdateAvailable(s.currentVersion, net.checkReply) then
      [FetchRelease] + PerformRun(s.currentVersion, s.preUpdateCallback, s.postUpdateCallback,
                                  net.updateReply, net.redirect, net.flash).events
    else [FetchRelease]
  }

  /** `handle`: nothing when the gate is closed; otherwise the stamp, then the check and update. */
  function HandleEvents(gateOpen: bool, stampNow: uint32, s: Settings, net: Network): seq<Event> {
    if !gateOpen then [] else [Stamp(stampNow as int)] + CheckEvents(s, net)
  }

  // ---------------------------------------------------------------------
  // The manager
  // ---------------------------------------------------------------------

  class OTAManager {
    var currentVersion: string
    var lastCheckTime: uint32
    var checkInterval: uint32
    var noVoteTimeThreshold: uint32
    var preUpdateCallback: Callback
    var postUpdateCallback: Callback
    ghost var trace: seq<Event>

    ghost function CurrentSettings(): Settings
      reads this
    {
      Settings(currentVersion, checkInterval, noVoteTimeThreshold, preUpdateCallback, postUpdateCallback)
    }

    /** The global `OTAManager ota;` before `init`: static storage, all zero, hooks null. */
    constructor ()
      ensures currentVersion == "" && lastCheckTime == 0 && checkInterval == 0 && noVoteTimeThreshold == 0
      ensures preUpdateCallback == NullCallback && postUpdateCallback == NullCallback
      ensures trace == []
    {
      currentVersion := "";
      lastCheckTime := 0;
      checkInterval := 0;
      noVoteTimeThreshold := 0;
      preUpdateCallback := NullCallback;
      postUpdateCallback := NullCallback;
      trace := [];
    }

    method Init(version: string)
      modifies this`currentVersion, this`lastCheckTime, this`checkInterval, this`noVoteTimeThreshold
      ensures currentVersion == version && lastCheckTime == 0
      ensures checkInterval == CHECK_INTERVAL && noVoteTimeThreshold == NO_VOTE_TIME_THRESHOLD
    {
      currentVersion := version;
      lastCheckTime := 0;
      checkInterval := 5 * 60 * 1000;
      noVoteTimeThreshold := 10 * 60 * 1000;
    }

    method SetPreUpdateCallback(callback: Callback)
      modifies this`preUpdateCallback
      ensures preUpdateCallback == callback
    {
      preUpdateCallback := callback;
    }

    method SetPostUpdateCallback(callback: Callback)
      modifies this`postUpdateCallback
      ensures postUpdateCallback == callback
    {
      postUpdateCallback := callback;
    }

    /** `shouldCheckForUpdate` at `millis() == now`. */
    method ShouldCheckForUpdate(now: uint32, lastAnyVoteTime: uint32) returns (due: bool)
      ensures due == ShouldCheck(now, lastCheckTime, checkInterval, lastAnyVoteTime, noVoteTimeThreshold)
    {
      if WrapSub(now, lastCheckTime) < checkInterval {
        return false;
      }
      if lastAnyVoteTime > 0 && WrapSub(now, lastAnyVoteTime) < noVoteTimeThreshold {
        return false;
      }
      return true;
    }

    /** `getLatestReleaseVersion`, with the request's answer given. */
    method GetLatestReleaseVersion(reply: ReleaseReply) returns (version: string)
      modifies this`trace
      ensures version == LatestReleaseVersion(reply)
      ensures trace == old(trace) + [FetchRelease]
    {
      trace := trace + [FetchRelease];
      if reply.httpCode != HTTP_CODE_OK {
        return "";
      }
      if reply.body.JsonError? {
        return "";
      }
      var tagName := reply.body.tagName;
      if |tagName| > 0 && tagName[0] == 'v' {
        tagName := tagName[1..];
      }
      return tagName;
    }

    /** `followRedirect(url)`, with the GET's answer given. */
    method ResolveRedirectOf(url: string, redirect: RedirectReply) returns (finalUrl: string)
      modifies this`trace
      ensures finalUrl == FollowRedirect(url, redirect.httpCode, redirect.location)
      ensures trace == old(trace) + [ResolveRedirect(url)]
    {
      trace := trace + [ResolveRedirect(url)];
      if redirect.httpCode == 200 && |redirect.location| > 0 {
        return redirect.location;
      }
      return url;
    }

    method CheckForUpdate(reply: ReleaseReply) returns (found: bool)
      modifies this`trace
      ensures found == UpdateAvailable(currentVersion, reply)
      ensures trace == old(trace) + [FetchRelease]
    {
      var latestVersion := GetLatestReleaseVersion(reply);
      if |latestVersion| == 0 {
        return false;
      }
      found := IsVersionNewer(latestVersion, currentVersion);
    }

    /** `forceCheckForUpdate`: the check without the gate; it never stamps and never updates. */
    method ForceCheckForUpdate(reply: ReleaseReply) returns (found: bool)
      modifies this`trace
      ensures found == UpdateAvailable(currentVersion, reply)
      ensures trace == old(trace) + [FetchRelease]
    {
      found := CheckForUpdate(reply);
    }

    method PerformUpdate(reply: ReleaseReply, redirect: RedirectReply, flash: UpdateResult) returns (ok: bool)
      modifies this`trace
      ensures var run := PerformRun(currentVersion, preUpdateCallback, postUpdateCallback, reply, redirect, flash);
        ok == run.result && trace == old(trace) + run.events
    {
      var latestVersion := GetLatestReleaseVersion(reply);
      if |latestVersion| == 0 {
        return false;
      }
      var downloadUrl := H1DownloadUrl(latestVersion);
      var finalUrl := ResolveRedirectOf(downloadUrl, redirect);
      if preUpdateCallback.Callback? {
        trace := trace + [PreUpdateHook(preUpdateCallback.id)];
      }
      trace := trace + [Flash(finalUrl, currentVersion)];
      ok := FinishUpdate(flash);
    }

    /** The `switch (result)` at the end of `performUpdate`. */
    method FinishUpdate(flash: UpdateResult) returns (ok: bool)
      modifies this`trace
      ensures ok == FlashOutcome(postUpdateCallback, flash).result
      ensures trace == old(trace) + FlashOutcome(postUpdateCallback, flash).events
    {
      match flash {
        case HttpUpdateFailed =>
          if postUpdateCallback.Callback? {
            trace := trace + [PostUpdateHook(postUpdateCallback.id)];
          }
          return false;
        case HttpUpdateNoUpdates =>
          if postUpdateCallback.Callback? {
            trace := trace + [PostUpdateHook(postUpdateCallback.id)];
          }
          return false;
        case HttpUpdateOk =>
          trace := trace + [Restart];
          return true;
      }
    }

    /** The body of `handle` past the gate: check, and update when the check says so. */
    method CheckThenUpdate(net: Network)
      modifies this`trace
      ensures trace == old(trace) + CheckEvents(CurrentSettings(), net)
    {
      ghost var before := trace;
      var found := CheckForUpdate(net.checkReply);
      if found {
        ghost var middle := trace;
        var _ := PerformUpdate(net.updateReply, net.redirect, net.flash);
        HandleAfterUpdate(CurrentSettings(), net, before, middle, trace);
      } else {
        HandleAfterCheck(CurrentSettings(), net, before, trace);
      }
    }

    /**
     * `handle`: `now` is the `millis()` the gate reads and `stampNow` the one
     * stored in `lastCheckTime` right after.
     */
    method Handle(now: uint32, stampNow: uint32, lastAnyVoteTime: uint32, net: Network)
      modifies this`lastCheckTime, this`trace
      ensures var gateOpen := ShouldCheck(now, old(lastCheckTime), checkInterval, lastAnyVoteTime, noVoteTimeThreshold);
        lastCheckTime == (if gateOpen then stampNow else old(lastCheckTime)) &&
        trace == old(trace) + HandleEvents(gateOpen, stampNow, CurrentSettings(), net)
    {
      var due := ShouldCheckForUpdate(now, lastAnyVoteTime);
      if !due {
        return;
      }
      lastCheckTime := stampNow;
      ghost var before := trace;
      trace := trace + [Stamp(stampNow as int)];
      ghost var middle := trace;
      CheckThenUpdate(net);
      HandleAfterStamp(stampNow, CurrentSettings(), net, before, middle, trace);
    }
  }

  lemma HandleAfterStamp(stampNow: uint32, s: Settings, net: Network,
                         before: seq<Event>, middle: seq<Event>, after: seq<Event>)
    requires middle == before + [Stamp(stampNow as int)]
    requires after == middle + CheckEvents(s, net)
    ensures after == before + HandleEvents(true, stampNow, s, net)
  {
  }

  lemma HandleAfterUpdate(s: Settings, net: Network, before: seq<Event>, middle: seq<Event>, after: seq<Event>)
    requires UpdateAvailable(s.currentVersion, net.checkReply)
    requires middle == before + [FetchRelease]
    requires after == middle + PerformRun(s.currentVersion, s.preUpdateCallback, s.postUpdateCallback,
                                          net.updateReply, net.redirect, net.flash).events
    ensures after == before + CheckEvents(s, net)
  {
  }

  lemma HandleAfterCheck(s: Settings, net: Network, before: seq<Event>, after: seq<Event>)
    requires !UpdateAvailable(s.currentVersion, net.checkReply)
    requires after == before + [FetchRelease]
    ensures after == before + CheckEvents(s, net)
  {
  }

  // ---------------------------------------------------------------------
  // Properties of the runs
  // ---------------------------------------------------------------------

  /** The check's answer is exactly: a release version was read and it is newer. */
  lemma CheckAnswer(currentVersion: string, reply: ReleaseReply)
    ensures UpdateAvailable(currentVersion, reply) <==>
              reply.httpCode == HTTP_CODE_OK && reply.body.JsonOk? &&
              StripVPrefix(reply.body.tagName) != "" &&
              VersionNewer(StripVPrefix(reply.body.tagName), currentVersion)
  {
  }

  /** The running version is never replaced by itself or an older one through `handle`. */
  lemma CheckRejectsSameOrOlder(currentVersion: string, reply: ReleaseReply)
    requires LatestReleaseVersion(reply) != ""
    requires !VersionNewer(LatestReleaseVersion(reply), currentVersion)
    ensures !UpdateAvailable(currentVersion, reply)
  {
  }

  /** A failed re-fetch ends the run: false, one fetch, no hook. */
  lemma FetchFailureRunsNoHooks(cur: string, pre: Callback, post: Callback,
                                reply: ReleaseReply, redirect: RedirectReply, flash: UpdateResult)
    requires LatestReleaseVersion(reply) == ""
    ensures var run := PerformRun(cur, pre, post, reply, redirect, flash);
      !run.result && run.events == [FetchRelease] && NoHooks(run.events)
  {
  }

  /** The run succeeds exactly when a version was fetched and the flash reported OK. */
  lemma PerformResult(cur: string, pre: Callback, post: Callback,
                      reply: ReleaseReply, redirect: RedirectReply, flash: UpdateResult)
    ensures PerformRun(cur, pre, post, reply, redirect, flash).result <==>
              LatestReleaseVersion(reply) != "" && flash == HttpUpdateOk
  {
  }

  /**
   * The URL flashed: the release asset, or where the redirect GET says it lives;
   * the running version is passed along. It is the run's only flash.
   */
  lemma FlashesResolvedUrl(cur: string, pre: Callback, post: Callback,
                           reply: ReleaseReply, redirect: RedirectReply, flash: UpdateResult)
    requires LatestReleaseVersion(reply) != ""
    ensures var url := H1DownloadUrl(LatestReleaseVersion(reply));
      var finalUrl := FollowRedirect(url, redirect.httpCode, redirect.location);
      var events := PerformRun(cur, pre, post, reply, redirect, flash).events;
      Count(events, Flash(finalUrl, cur)) == 1 && Before(events, ResolveRedirect(url), Flash(finalUrl, cur)) &&
      forall i :: 0 <= i < |events| && events[i].Flash? ==> events[i] == Flash(finalUrl, cur)
  {
    var url := H1DownloadUrl(LatestReleaseVersion(reply));
    var finalUrl := FollowRedirect(url, redirect.httpCode, redirect.location);
    var events := PerformRun(cur, pre, post, reply, redirect, flash).events;
    var head := [FetchRelease, ResolveRedirect(url)] + PreHookCall(pre);
    var tail := FlashOutcome(post, flash).events;
    assert events == head + [Flash(finalUrl, cur)] + tail;
    CountAppend(head + [Flash(finalUrl, cur)], tail, Flash(finalUrl, cur));
    CountAppend(head, [Flash(finalUrl, cur)], Flash(finalUrl, cur));
    CountAppend([FetchRelease, ResolveRedirect(url)], PreHookCall(pre), Flash(finalUrl, cur));
    assert Flash(finalUrl, cur) !in tail;
    assert events[1] == ResolveRedirect(url) && events[|head|] == Flash(finalUrl, cur);
    OnlyFlashIsResolved(cur, pre, post, reply, redirect, flash);
  }

  lemma OnlyFlashIsResolved(cur: string, pre: Callback, post: Callback,
                            reply: ReleaseReply, redirect: RedirectReply, flash: UpdateResult)
    requires LatestReleaseVersion(reply) != ""
    ensures var url := H1DownloadUrl(LatestReleaseVersion(reply));
      var finalUrl := FollowRedirect(url, redirect.httpCode, redirect.location);
      var events := PerformRun(cur, pre, post, reply, redirect, flash).events;
      forall i :: 0 <= i < |events| && events[i].Flash? ==> events[i] == Flash(finalUrl, cur)
  {
    var url := H1DownloadUrl(LatestReleaseVersion(reply));
    var finalUrl := FollowRedirect(url, redirect.httpCode, redirect.location);
    var events := PerformRun(cur, pre, post, reply, redirect, flash).events;
    var head := [FetchRelease, ResolveRedirect(url)] + PreHookCall(pre);
    var tail := FlashOutcome(post, flash).events;
    assert events == head + [Flash(finalUrl, cur)] + tail;
  }

  /** The pre hook, when set, runs exactly once: after the redirect step and before the flash. */
  lemma PreHookOnceBeforeFlash(cur: string, pre: Callback, post: Callback,
                               reply: ReleaseReply, redirect: RedirectReply, flash: UpdateResult)
    requires LatestReleaseVersion(reply) != "" && pre.Callback?
    ensures var url := H1DownloadUrl(LatestReleaseVersion(reply));
      var finalUrl := FollowRedirect(url, redirect.httpCode, redirect.location);
      var events := PerformRun(cur, pre, post, reply, redirect, flash).events;
      Count(events, PreUpdateHook(pre.id)) == 1 &&
      Before(events, ResolveRedirect(url), PreUpdateHook(pre.id)) &&
      Before(events, PreUpdateHook(pre.id), Flash(finalUrl, cur))
  {
    var url := H1DownloadUrl(LatestReleaseVersion(reply));
    var finalUrl := FollowRedirect(url, redirect.httpCode, redirect.location);
    var events := PerformRun(cur, pre, post, reply, redirect, flash).events;
    var hook := PreUpdateHook(pre.id);
    var tail := [Flash(finalUrl, cur)] + FlashOutcome(post, flash).events;
    assert events == [FetchRelease, ResolveRedirect(url), hook] + tail;
    CountAppend([FetchRelease, ResolveRedirect(url), hook], tail, hook);
    assert hook !in tail;
    assert events[1] == ResolveRedirect(url) && events[2] == hook && events[3] == Flash(finalUrl, cur);
  }

  /** Proof step: the events of a run that got as far as the flash, unfolded. */
  lemma FlashedRunShape(cur: string, pre: Callback, post: Callback,
                        reply: ReleaseReply, redirect: RedirectReply, flash: UpdateResult)
    requires LatestReleaseVersion(reply) != ""
    ensures var url := H1DownloadUrl(LatestReleaseVersion(reply));
      var finalUrl := FollowRedirect(url, redirect.httpCode, redirect.location);
      var run := PerformRun(cur, pre, post, reply, redirect, flash);
      run.events == [FetchRelease, ResolveRedirect(url)] + PreHookCall(pre) + [Flash(finalUrl, cur)] +
                    FlashOutcome(post, flash).events
  {
  }

  /**
   * FAILED and NO_UPDATES: the result is false, there is no restart, and the
   * post hook, when set, runs exactly once, last, after the flash.
   */
  lemma PostHookAfterFailedFlash(cur: string, pre: Callback, post: Callback,
                                 reply: ReleaseReply, redirect: RedirectReply, flash: UpdateResult)
    requires LatestReleaseVersion(reply) != "" && flash != HttpUpdateOk
    ensures var url := H1DownloadUrl(LatestReleaseVersion(reply));
      var finalUrl := FollowRedirect(url, redirect.httpCode, redirect.location);
      var run := PerformRun(cur, pre, post, reply, redirect, flash);
      !run.result && Restart !in run.events &&
      (post.NullCallback? ==> NoPostHook(run.events)) &&
      (post.Callback? ==>
        Count(run.events, PostUpdateHook(post.id)) == 1 &&
        run.events[|run.events| - 1] == PostUpdateHook(post.id) &&
        Before(run.events, Flash(finalUrl, cur), PostUpdateHook(post.id)))
  {
    var url := H1DownloadUrl(LatestReleaseVersion(reply));
    var finalUrl := FollowRedirect(url, redirect.httpCode, redirect.location);
    FlashedRunShape(cur, pre, post, reply, redirect, flash);
    var head := [FetchRelease, ResolveRedirect(url)] + PreHookCall(pre) + [Flash(finalUrl, cur)];
    assert NoPostHook(head);
    if post.Callback? {
      var hook := PostUpdateHook(post.id);
      CountAppend(head, [hook], hook);
      BeforeAcross(head, [hook], Flash(finalUrl, cur), hook);
    } else {
      assert head + PostHookCall(post) == head;
    }
  }

  /** With both hooks set, a failed flash calls the pre hook before the post hook. */
  lemma PreHookBeforePostHook(cur: string, pre: Callback, post: Callback,
                              reply: ReleaseReply, redirect: RedirectReply, flash: UpdateResult)
    requires LatestReleaseVersion(reply) != "" && flash != HttpUpdateOk
    requires pre.Callback? && post.Callback?
    ensures Before(PerformRun(cur, pre, post, reply, redirect, flash).events,
                   PreUpdateHook(pre.id), PostUpdateHook(post.id))
  {
    var url := H1DownloadUrl(LatestReleaseVersion(reply));
    var finalUrl := FollowRedirect(url, redirect.httpCode, redirect.location);
    FlashedRunShape(cur, pre, post, reply, redirect, flash);
    var head := [FetchRelease, ResolveRedirect(url), PreUpdateHook(pre.id), Flash(finalUrl, cur)];
    assert PerformRun(cur, pre, post, reply, redirect, flash).events == head + [PostUpdateHook(post.id)];
    BeforeAcross(head, [PostUpdateHook(post.id)], PreUpdateHook(pre.id), PostUpdateHook(post.id));
  }

  /** OK: the result is true, the restart is the last event, and the post hook never runs. */
  lemma RestartEndsSuccessfulFlash(cur: string, pre: Callback, post: Callback,
                                   reply: ReleaseReply, redirect: RedirectReply)
    requires LatestReleaseVersion(reply) != ""
    ensures var run := PerformRun(cur, pre, post, reply, redirect, HttpUpdateOk);
      run.result && run.events[|run.events| - 1] == Restart &&
      Count(run.events, Restart) == 1 && NoPostHook(run.events)
  {
    var url := H1DownloadUrl(LatestReleaseVersion(reply));
    var finalUrl := FollowRedirect(url, redirect.httpCode, redirect.location);
    var events := PerformRun(cur, pre, post, reply, redirect, HttpUpdateOk).events;
    var head := [FetchRelease, ResolveRedirect(url)] + PreHookCall(pre) + [Flash(finalUrl, cur)];
    assert events == head + [Restart];
    CountAppend(head, [Restart], Restart);
    assert Restart !in head;
  }

  /**
   * `performUpdate` does not compare versions: it flashes whatever the
   * re-fetch names, however it compares with the running version.
   */
  lemma PerformIgnoresRunningVersion(cur1: string, cur2: string, pre: Callback, post: Callback,
                                     reply: ReleaseReply, redirect: RedirectReply, flash: UpdateResult)
    ensures PerformRun(cur1, pre, post, reply, redirect, flash).result ==
            PerformRun(cur2, pre, post, reply, redirect, flash).result
    ensures |PerformRun(cur1, pre, post, reply, redirect, flash).events| ==
            |PerformRun(cur2, pre, post, reply, redirect, flash).events|
  {
  }

  /** A closed gate: `handle` does nothing at all. */
  lemma ClosedGateDoesNothing(stampNow: uint32, s: Settings, net: Network)
    ensures HandleEvents(false, stampNow, s, net) == []
  {
  }

  /**
   * An open gate: `lastCheckTime` is stamped once, first, before the check's
   * fetch, whatever the check and the update then do.
   */
  lemma StampBeforeFetch(stampNow: uint32, s: Settings, net: Network)
    ensures var events := HandleEvents(true, stampNow, s, net);
      events[0] == Stamp(stampNow as int) && Count(events, Stamp(stampNow as int)) == 1 &&
      Before(events, Stamp(stampNow as int), FetchRelease)
  {
    var check := CheckEvents(s, net);
    var events := HandleEvents(true, stampNow, s, net);
    CheckHasNoStamp(s, net);
    CountAppend([Stamp(stampNow as int)], check, Stamp(stampNow as int));
    assert check[0] == FetchRelease;
    BeforeAcross([Stamp(stampNow as int)], check, Stamp(stampNow as int), FetchRelease);
  }

  lemma CheckHasNoStamp(s: Settings, net: Network)
    ensures forall i :: 0 <= i < |CheckEvents(s, net)| ==> !CheckEvents(s, net)[i].Stamp?
  {
    var events := CheckEvents(s, net);
    if UpdateAvailable(s.currentVersion, net.checkReply) {
      var run := PerformRun(s.currentVersion, s.preUpdateCallback, s.postUpdateCallback,
                            net.updateReply, net.redirect, net.flash);
      PerformHasNoStamp(s.currentVersion, s.preUpdateCallback, s.postUpdateCallback,
                        net.updateReply, net.redirect, net.flash);
      assert events == [FetchRelease] + run.events;
      forall i | 0 <= i < |events| ensures !events[i].Stamp? {
        if i > 0 { assert events[i] == run.events[i - 1]; }
      }
    }
  }

  lemma PerformHasNoStamp(cur: string, pre: Callback, post: Callback,
                          reply: ReleaseReply, redirect: RedirectReply, flash: UpdateResult)
    ensures var events := PerformRun(cur, pre, post, reply, redirect, flash).events;
      forall i :: 0 <= i < |events| ==> !events[i].Stamp?
  {
    var latest := LatestReleaseVersion(reply);
    if latest != "" {
      var url := H1DownloadUrl(latest);
      var head := [FetchRelease, ResolveRedirect(url)] + PreHookCall(pre) +
                  [Flash(FollowRedirect(url, redirect.httpCode, redirect.location), cur)];
      var tail := FlashOutcome(post, flash).events;
      var events := PerformRun(cur, pre, post, reply, redirect, flash).events;
      assert events == head + tail;
      forall i | 0 <= i < |events| ensures !events[i].Stamp? {
        if i < |head| { assert events[i] == head[i]; } else { assert events[i] == tail[i - |head|]; }
      }
    }
  }

  /**
   * Past the stamp: one fetch for the check; `performUpdate` (its re-fetch
   * and flash) follows exactly when the check found a newer release.
   */
  lemma HandleUpdatesOnlyWhenNewer(s: Settings, net: Network)
    ensures var events := CheckEvents(s, net);
      events[0] == FetchRelease &&
      (Count(events, FetchRelease) == 2 <==> UpdateAvailable(s.currentVersion, net.checkReply)) &&
      (!UpdateAvailable(s.currentVersion, net.checkReply) ==> events == [FetchRelease])
  {
    var events := CheckEvents(s, net);
    if UpdateAvailable(s.currentVersion, net.checkReply) {
      var run := PerformRun(s.currentVersion, s.preUpdateCallback, s.postUpdateCallback,
                            net.updateReply, net.redirect, net.flash);
      assert events == [FetchRelease] + run.events;
      CountAppend([FetchRelease], run.events, FetchRelease);
      PerformFetchesOnce(s.currentVersion, s.preUpdateCallback, s.postUpdateCallback,
                         net.updateReply, net.redirect, net.flash);
    }
  }

  lemma PerformFetchesOnce(cur: string, pre: Callback, post: Callback,
                           reply: ReleaseReply, redirect: RedirectReply, flash: UpdateResult)
    ensures Count(PerformRun(cur, pre, post, reply, redirect, flash).events, FetchRelease) == 1
  {
    var events := PerformRun(cur, pre, post, reply, redirect, flash).events;
    if LatestReleaseVersion(reply) != "" {
      assert events == [FetchRelease] + events[1..];
      CountAppend([FetchRelease], events[1..], FetchRelease);
      assert FetchRelease !in events[1..];
    }
  }

  /**
   * The check and the update fetch separately: once the first answer shows a
   * newer release, the second is flashed even when it names a version that
   * is not newer than (or equal to) the running one.
   */
  lemma RefetchIsNotRechecked(s: Settings, net: Network)
    requires UpdateAvailable(s.currentVersion, net.checkReply)
    requires LatestReleaseVersion(net.updateReply) != ""
    ensures var url := H1DownloadUrl(LatestReleaseVersion(net.updateReply));
      var finalUrl := FollowRedirect(url, net.redirect.httpCode, net.redirect.location);
      Flash(finalUrl, s.currentVersion) in CheckEvents(s, net)
  {
    var url := H1DownloadUrl(LatestReleaseVersion(net.updateReply));
    var finalUrl := FollowRedirect(url, net.redirect.httpCode, net.redirect.location);
    FlashesResolvedUrl(s.currentVersion, s.preUpdateCallback, s.postUpdateCallback,
                       net.updateReply, net.redirect, net.flash);
    var run := PerformRun(s.currentVersion, s.preUpdateCallback, s.postUpdateCallback,
                          net.updateReply, net.redirect, net.flash);
    assert Flash(finalUrl, s.currentVersion) in run.events;
    assert CheckEvents(s, net) == [FetchRelease] + run.events;
  }
}
