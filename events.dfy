/**
 * What an update run does to the outside world, as a trace of events.
 *
 * The hooks are plain C function pointers that set the LEDs; the model
 * identifies a hook by a number and records each call, together with the
 * stamp of `lastCheckTime`, the release fetch, the redirect resolution (h1),
 * the flash and the restart.
 */
module UpdateEvents {

  /** A `void (*)()` hook: unset (nullptr) or a function, named by a number. */
  datatype Callback = NullCallback | Callback(id: nat)

  /** `HTTPUpdateResult` as returned by `httpUpdate.update`. */
  datatype UpdateResult = HttpUpdateFailed | HttpUpdateNoUpdates | HttpUpdateOk

  datatype Event =
    | Stamp(time: int)                          // `lastCheckTime = millis()` in `handle`
    | FetchRelease                              // GET of the latest-release document
    | ResolveRedirect(url: string)              // h1's `followRedirect(url)`
    | PreUpdateHook(id: nat)                    // `preUpdateCallback()`
    | Flash(url: string, currentVersion: string) // `httpUpdate.update(client, url, currentVersion)`
    | PostUpdateHook(id: nat)                   // `postUpdateCallback()`
    | Restart                                   // `ESP.restart()`

  /** A run of `performUpdate` or `checkForUpdate`: the value returned and the events caused. */
  datatype Run = Run(result: bool, events: seq<Event>)

  /** `if (preUpdateCallback) preUpdateCallback();` */
  function PreHookCall(cb: Callback): (calls: seq<Event>)
    ensures cb.NullCallback? ==> calls == []
    ensures cb.Callback? ==> calls == [PreUpdateHook(cb.id)]
  {
    if cb.Callback? then [PreUpdateHook(cb.id)] else []
  }

  /** `if (postUpdateCallback) postUpdateCallback();` */
  function PostHookCall(cb: Callback): (calls: seq<Event>)
    ensures cb.NullCallback? ==> calls == []
    ensures cb.Callback? ==> calls == [PostUpdateHook(cb.id)]
  {
    if cb.Callback? then [PostUpdateHook(cb.id)] else []
  }

  /** How often `e` occurs in `s`. */
  function Count(s: seq<Event>, e: Event): (n: nat)
    ensures n <= |s|
    ensures n == 0 <==> e !in s
  {
    if |s| == 0 then 0 else (if s[0] == e then 1 else 0) + Count(s[1..], e)
  }

  /** Some occurrence of `first` comes strictly before some occurrence of `second`. */
  predicate Before(s: seq<Event>, first: Event, second: Event) {
    exists i, j :: 0 <= i < j < |s| && s[i] == first && s[j] == second
  }

  predicate IsHook(e: Event) {
    e.PreUpdateHook? || e.PostUpdateHook?
  }

  predicate NoHooks(s: seq<Event>) {
    forall i :: 0 <= i < |s| ==> !IsHook(s[i])
  }

  predicate NoPostHook(s: seq<Event>) {
    forall i :: 0 <= i < |s| ==> !s[i].PostUpdateHook?
  }

  lemma {:induction false} CountAppend(a: seq<Event>, b: seq<Event>, e: Event)
    ensures Count(a + b, e) == Count(a, e) + Count(b, e)
  {
    if |a| > 0 {
      CountAppend(a[1..], b, e);
      assert (a + b)[1..] == a[1..] + b;
    } else {
      assert a + b == b;
    }
  }

  /** An event in the front part of a trace comes before any event of the back part. */
  lemma BeforeAcross(a: seq<Event>, b: seq<Event>, first: Event, second: Event)
    requires first in a && second in b
    ensures Before(a + b, first, second)
  {
    var i :| 0 <= i < |a| && a[i] == first;
    var j :| 0 <= j < |b| && b[j] == second;
    assert (a + b)[i] == first && (a + b)[|a| + j] == second;
  }
}
