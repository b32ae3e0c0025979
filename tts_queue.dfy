/** The text-to-speech playback queue of services/ttsQueue.ts as an event
    system. Sentences are enqueued; each starts its audio fetch at once and
    waits in a FIFO queue; a driver (`playNext`) takes the head, waits for its
    fetch, plays the audio and then starts again. `stopAll` aborts the
    fetches, stops the current audio and empties the queue.

    Every `await` is a point where other events may run, so a driver is a
    pending task: waiting for a fetch, or waiting for its audio to end. The
    environment decides when a fetch settles, when a waiting driver resumes
    and when playback ends, fails or is refused. A fetch settles with audio
    when the request succeeds before its controller is aborted, otherwise with
    nothing. Resources (controllers, items, audio elements, blob URLs) are
    numbered from one counter. */
module TtsQueueModel {
  import opened Text

  /** A queued sentence: its number, its text and the controller whose signal
      its fetch listens to. */
  datatype Item = Item(id: nat, text: string, controller: nat)

  /** A pending `playNext` task: awaiting the fetch of `item` (started in
      stop-generation `gen`), or awaiting the end of audio element `audio`,
      whose `onended`/`onerror` handlers are still set when `attached`. */
  datatype Driver =
    | AwaitFetch(item: Item, gen: nat)
    | AwaitPlayback(item: Item, audio: nat, attached: bool)

  /** How a playback wait ends: the `ended` or `error` event, or a rejected `play()`. */
  datatype PlaybackOutcome = Ended | Failed | PlayRejected

  datatype Event =
    | Enqueue(text: string)
    | FetchSettled(id: nat, ok: bool)
    | Resume(driver: nat)
    | PlaybackDone(driver: nat, how: PlaybackOutcome)
    | StopAll

  /** What the JavaScript runtime holds besides the object: the aborted
      controllers, the fetches still in flight (item to controller), the
      settled fetches (item to "has audio"), the pending drivers, the counter
      that numbers new resources, and the number of `stopAll` calls. */
  datatype Runtime = Runtime(
    aborted: set<nat>,
    inFlight: map<nat, nat>,
    settled: map<nat, bool>,
    drivers: seq<Driver>,
    nextId: nat,
    generation: nat)

  /** Every item enqueued, every item that left the queue (taken by a driver
      or dropped by `stopAll`), and every item whose audio was created. */
  datatype Log = Log(enqueued: seq<Item>, left: seq<Item>, started: seq<Item>)

  /** Whether the API key and voice are configured, the five fields of the
      source's class, the runtime and the logs. */
  datatype State = State(
    configured: bool,
    queue: seq<Item>,
    isPlaying: bool,
    abortController: Option<nat>,
    currentAudio: Option<nat>,
    currentBlobUrl: Option<nat>,
    rt: Runtime,
    log: Log)

  function Init(configured: bool): State
  {
    State(configured, [], false, None, None, None, Runtime({}, map[], map[], [], 0, 0), Log([], [], []))
  }

  function WithDrivers(s: State, drivers: seq<Driver>): State
  {
    s.(rt := s.rt.(drivers := drivers))
  }

  /** `getOrCreateAbortController`: the current controller when there is one
      that is not aborted, else a new one. */
  function ControllerStep(s: State): (State, nat)
  {
    if s.abortController.None? || s.abortController.value in s.rt.aborted then
      (s.(abortController := Some(s.rt.nextId), rt := s.rt.(nextId := s.rt.nextId + 1)), s.rt.nextId)
    else (s, s.abortController.value)
  }

  /** The synchronous part of `playNext`, up to its first `await`: on an empty
      queue the driver stops and clears `isPlaying`; otherwise it sets
      `isPlaying`, takes the head item and waits for its fetch. */
  function DriverStart(s: State): State
  {
    if |s.queue| == 0 then s.(isPlaying := false)
    else s.(isPlaying := true, queue := s.queue[1..],
            rt := s.rt.(drivers := s.rt.drivers + [AwaitFetch(s.queue[0], s.rt.generation)]),
            log := s.log.(left := s.log.left + [s.queue[0]]))
  }

  /** `enqueue`: nothing without an API key and voice; otherwise the fetch
      starts under the current controller, the item joins the tail of the
      queue, and a driver starts unless one is playing. */
  function EnqueueStep(s: State, text: string): State
  {
    if !s.configured then s
    else
      var (s1, c) := ControllerStep(s);
      var s2 := Pushed(s1, Item(s1.rt.nextId, text, c));
      if !s2.isPlaying then DriverStart(s2) else s2
  }

  /** The item is in flight and at the end of the queue. */
  function Pushed(s: State, item: Item): State
  {
    s.(queue := s.queue + [item],
       rt := s.rt.(inFlight := s.rt.inFlight[item.id := item.controller], nextId := s.rt.nextId + 1),
       log := s.log.(enqueued := s.log.enqueued + [item]))
  }

  /** `cleanupCurrent`: the blob URL is revoked and forgotten, and so is the audio element. */
  function Cleanup(s: State): State
  {
    s.(currentBlobUrl := None, currentAudio := None)
  }

  function Remove(drivers: seq<Driver>, d: nat): seq<Driver>
    requires d < |drivers|
  {
    drivers[..d] + drivers[d + 1..]
  }

  /** The handlers of the drivers playing `audio` are cleared. */
  function Detach(drivers: seq<Driver>, audio: nat): (r: seq<Driver>)
    ensures |r| == |drivers|
  {
    seq(|drivers|, i requires 0 <= i < |drivers| =>
      if drivers[i].AwaitPlayback? && drivers[i].audio == audio then drivers[i].(attached := false) else drivers[i])
  }

  /** `stopAll`: the controller is aborted and dropped, the current audio
      loses its handlers, the current audio and URL are cleaned up, the queue
      is emptied and `isPlaying` cleared. */
  function StopAllStep(s: State): State
  {
    var aborted := if s.abortController.Some? then s.rt.aborted + {s.abortController.value} else s.rt.aborted;
    var drivers := if s.currentAudio.Some? then Detach(s.rt.drivers, s.currentAudio.value) else s.rt.drivers;
    Cleanup(s).(abortController := None, queue := [], isPlaying := false,
                rt := s.rt.(aborted := aborted, drivers := drivers, generation := s.rt.generation + 1),
                log := s.log.(left := s.log.left + s.queue))
  }

  /** `fetchAudio` of item `id` settles: with audio when the response was
      received (`ok`) and its controller was not aborted first, with nothing
      when the request failed or was aborted. */
  function SettleStep(s: State, id: nat, ok: bool): State
    requires id in s.rt.inFlight
  {
    s.(rt := s.rt.(inFlight := s.rt.inFlight - {id},
                   settled := s.rt.settled[id := ok && s.rt.inFlight[id] !in s.rt.aborted]))
  }

  /** The driver `d` gets its fetch result. Without audio, or when
      `isPlaying` is false, it moves on to the next item; otherwise it creates
      the blob URL and the audio element and waits for playback. When
      `guarded`, a driver that a `stopAll` overtook ends there. */
  function Resolve(s: State, d: nat, gotBlob: bool, guarded: bool): State
    requires d < |s.rt.drivers| && s.rt.drivers[d].AwaitFetch?
  {
    var item := s.rt.drivers[d].item;
    if guarded && s.rt.drivers[d].gen != s.rt.generation then WithDrivers(s, Remove(s.rt.drivers, d))
    else if !s.isPlaying || !gotBlob then DriverStart(WithDrivers(s, Remove(s.rt.drivers, d)))
    else
      var n := s.rt.nextId;
      s.(currentBlobUrl := Some(n), currentAudio := Some(n + 1),
         rt := s.rt.(drivers := s.rt.drivers[d := AwaitPlayback(item, n + 1, true)], nextId := n + 2),
         log := s.log.(started := s.log.started + [item]))
  }

  /** Playback of driver `d` ends: a handler that is still set, or a rejected
      `play()`, cleans up and starts the driver again; an `ended` or `error`
      event whose handler `stopAll` cleared changes nothing. When `guarded`,
      a rejected `play()` of audio that `stopAll` detached ends the driver
      and touches nothing else. */
  function PlaybackStep(s: State, d: nat, how: PlaybackOutcome, guarded: bool): State
    requires d < |s.rt.drivers| && s.rt.drivers[d].AwaitPlayback?
  {
    if s.rt.drivers[d].attached || (how == PlayRejected && !guarded) then
      DriverStart(WithDrivers(Cleanup(s), Remove(s.rt.drivers, d)))
    else if how == PlayRejected then WithDrivers(s, Remove(s.rt.drivers, d))
    else s
  }

  /** The fetch result the driver `d` waits for, once it has settled. */
  predicate CanResume(s: State, d: nat)
  {
    d < |s.rt.drivers| && s.rt.drivers[d].AwaitFetch? && s.rt.drivers[d].item.id in s.rt.settled
  }

  /** One event. An event aimed at a fetch or a driver that is not waiting
      for it changes nothing. `guarded` selects the corrected staleness check. */
  function Step(s: State, ev: Event, guarded: bool): State
  {
    match ev
    case Enqueue(text) => EnqueueStep(s, text)
    case FetchSettled(id, ok) =>
      if id in s.rt.inFlight then SettleStep(s, id, ok) else s
    case Resume(d) =>
      if CanResume(s, d) then Resolve(s, d, s.rt.settled[s.rt.drivers[d].item.id], guarded) else s
    case PlaybackDone(d, how) =>
      if d < |s.rt.drivers| && s.rt.drivers[d].AwaitPlayback? then PlaybackStep(s, d, how, guarded) else s
    case StopAll => StopAllStep(s)
  }

  function Run(s: State, evs: seq<Event>, guarded: bool): State
    decreases |evs|
  {
    if evs == [] then s else Run(Step(s, evs[0], guarded), evs[1..], guarded)
  }

  /** What every reachable state satisfies: without a playing driver the
      queue is empty; the items that left the queue followed by the queue are
      exactly the items enqueued, in order; the live controller is not
      aborted; every number handed out is below the counter; no driver
      belongs to a future stop-generation; and every started item, like the
      item of every driver, is one that left the queue. */
  predicate Inv(s: State)
  {
    && (!s.isPlaying ==> s.queue == [])
    && s.log.left + s.queue == s.log.enqueued
    && (s.abortController.Some? ==>
          s.abortController.value !in s.rt.aborted && s.abortController.value < s.rt.nextId)
    && (forall c :: c in s.rt.aborted ==> c < s.rt.nextId)
    && (forall i :: 0 <= i < |s.log.enqueued| ==> s.log.enqueued[i].id < s.rt.nextId)
    && (forall i :: 0 <= i < |s.rt.drivers| && s.rt.drivers[i].AwaitFetch? ==> s.rt.drivers[i].gen <= s.rt.generation)
    && (forall k :: 0 <= k < |s.log.started| ==> s.log.started[k] in s.log.left)
    && (forall i :: 0 <= i < |s.rt.drivers| ==> s.rt.drivers[i].item in s.log.left)
  }

  /** Under the invariant every started item, and the item of every
      driver, was enqueued. */
  lemma InvEnqueued(s: State)
    requires Inv(s)
    ensures forall k :: 0 <= k < |s.log.started| ==> s.log.started[k] in s.log.enqueued
    ensures forall i :: 0 <= i < |s.rt.drivers| ==> s.rt.drivers[i].item in s.log.enqueued
  {
    forall x | x in s.log.left
      ensures x in s.log.enqueued
    {
      assert x in s.log.left + s.queue;
    }
  }

  /** A driver start takes the head of the queue, in order, and marks the
      queue as playing; on an empty queue it only clears `isPlaying`. */
  lemma DriverStartSpec(s: State)
    ensures DriverStart(s).log.left + DriverStart(s).queue == s.log.left + s.queue
    ensures !DriverStart(s).isPlaying ==> DriverStart(s).queue == []
    ensures s.queue == [] ==> DriverStart(s) == s.(isPlaying := false)
    ensures s.queue != [] ==>
      && DriverStart(s).isPlaying
      && DriverStart(s).queue == s.queue[1..]
      && DriverStart(s).rt.drivers == s.rt.drivers + [AwaitFetch(s.queue[0], s.rt.generation)]
      && DriverStart(s).log.left == s.log.left + [s.queue[0]]
  {
    if s.queue != [] {
      calc {
        (s.log.left + [s.queue[0]]) + s.queue[1..];
        { AppendAssoc(s.log.left, [s.queue[0]], s.queue[1..]); }
        s.log.left + ([s.queue[0]] + s.queue[1..]);
        { assert [s.queue[0]] + s.queue[1..] == s.queue; }
        s.log.left + s.queue;
      }
    }
  }

  /** `getOrCreateAbortController` hands back the live controller unchanged;
      when there is none it installs a new one that was never aborted. */
  lemma ControllerReuse(s: State)
    requires Inv(s)
    ensures s.abortController.Some? ==> ControllerStep(s) == (s, s.abortController.value)
    ensures s.abortController.None? ==>
      && ControllerStep(s).1 == s.rt.nextId
      && ControllerStep(s).1 !in s.rt.aborted
      && ControllerStep(s).0 == s.(abortController := Some(s.rt.nextId), rt := s.rt.(nextId := s.rt.nextId + 1))
  {
    if s.abortController.None? {
      assert s.rt.nextId !in s.rt.aborted;
    }
  }

  /** Without an API key and voice `enqueue` changes nothing. With them the
      new item, carrying the text and the live controller, joins the end of
      the queue; when nothing was playing a driver takes it at once. */
  lemma EnqueueSpec(s: State, text: string, guarded: bool)
    requires Inv(s)
    ensures !s.configured ==> Step(s, Enqueue(text), guarded) == s
    ensures s.configured ==>
      var r := Step(s, Enqueue(text), guarded);
      var c := if s.abortController.Some? then s.abortController.value else s.rt.nextId;
      var item := Item(if s.abortController.Some? then s.rt.nextId else s.rt.nextId + 1, text, c);
      && r.log.enqueued == s.log.enqueued + [item]
      && r.abortController == Some(c) && c !in r.rt.aborted
      && r.isPlaying
      && (s.isPlaying ==> r.queue == s.queue + [item] && r.rt.drivers == s.rt.drivers)
      && (!s.isPlaying ==> r.queue == [] && r.rt.drivers == s.rt.drivers + [AwaitFetch(item, s.rt.generation)])
      && r.log.started == s.log.started && r.currentAudio == s.currentAudio && r.currentBlobUrl == s.currentBlobUrl
  {
    if s.configured {
      ControllerReuse(s);
      var (s1, c) := ControllerStep(s);
      var s2 := Pushed(s1, Item(s1.rt.nextId, text, c));
      if !s2.isPlaying {
        DriverStartSpec(s2);
      }
    }
  }

  /** A fetch whose controller was aborted before it settled yields no audio. */
  lemma AbortedFetchYieldsNothing(s: State, id: nat, ok: bool, guarded: bool)
    requires id in s.rt.inFlight && s.rt.inFlight[id] in s.rt.aborted
    ensures id in Step(s, FetchSettled(id, ok), guarded).rt.settled
    ensures !Step(s, FetchSettled(id, ok), guarded).rt.settled[id]
    ensures id !in Step(s, FetchSettled(id, ok), guarded).rt.inFlight
  {
  }

  /** The guard after the `await`: a driver that resumes with no audio, or
      while `isPlaying` is false, creates no audio and no URL; as written it
      moves on to the next queued item, and when `guarded` a driver that a
      `stopAll` overtook ends instead. */
  lemma ResumeSkips(s: State, d: nat, guarded: bool)
    requires CanResume(s, d)
    requires !s.isPlaying || !s.rt.settled[s.rt.drivers[d].item.id]
    ensures Step(s, Resume(d), guarded).log.started == s.log.started
    ensures Step(s, Resume(d), guarded).currentAudio == s.currentAudio
    ensures Step(s, Resume(d), guarded).currentBlobUrl == s.currentBlobUrl
    ensures !(guarded && s.rt.drivers[d].gen != s.rt.generation) ==>
      Step(s, Resume(d), guarded) == DriverStart(WithDrivers(s, Remove(s.rt.drivers, d)))
    ensures guarded && s.rt.drivers[d].gen != s.rt.generation ==>
      Step(s, Resume(d), guarded) == WithDrivers(s, Remove(s.rt.drivers, d))
  {
  }

  /** A driver that resumes with audio while playing creates a new URL and
      audio element for its own item, logs the item as started and waits for
      its playback. */
  lemma ResumePlays(s: State, d: nat)
    requires CanResume(s, d)
    requires s.isPlaying && s.rt.settled[s.rt.drivers[d].item.id]
    ensures var r := Step(s, Resume(d), false);
      && r.log.started == s.log.started + [s.rt.drivers[d].item]
      && r.currentBlobUrl.Some? && r.currentAudio.Some?
      && r.rt.drivers[d] == AwaitPlayback(s.rt.drivers[d].item, r.currentAudio.value, true)
      && r.queue == s.queue && r.isPlaying
  {
  }

  /** When playback of a driver ends through a handler that is still set, or
      (as written) through a rejected `play()`, no audio element and no blob
      URL stay held, and the driver moves on to the next item. When
      `guarded`, a rejected `play()` of detached audio only ends the driver. */
  lemma PlaybackCleansUp(s: State, d: nat, how: PlaybackOutcome, guarded: bool)
    requires d < |s.rt.drivers| && s.rt.drivers[d].AwaitPlayback?
    requires how == PlayRejected || s.rt.drivers[d].attached
    ensures Step(s, PlaybackDone(d, how), guarded).log.started == s.log.started
    ensures s.rt.drivers[d].attached || !guarded ==>
      && Step(s, PlaybackDone(d, how), guarded).currentAudio.None?
      && Step(s, PlaybackDone(d, how), guarded).currentBlobUrl.None?
      && Step(s, PlaybackDone(d, how), guarded) == DriverStart(WithDrivers(Cleanup(s), Remove(s.rt.drivers, d)))
    ensures !s.rt.drivers[d].attached && guarded ==>
      Step(s, PlaybackDone(d, how), guarded) == WithDrivers(s, Remove(s.rt.drivers, d))
  {
  }

  /** After `stopAll` the queue is empty, nothing plays, no controller, audio
      or URL is held, the old controller is aborted and the old audio has no
      handlers left. A second `stopAll` changes nothing but the count of stops. */
  lemma StopAllSpec(s: State, guarded: bool)
    ensures var r := Step(s, StopAll, guarded);
      && r.queue == [] && !r.isPlaying
      && r.abortController.None? && r.currentAudio.None? && r.currentBlobUrl.None?
      && (s.abortController.Some? ==> s.abortController.value in r.rt.aborted)
      && (forall i :: 0 <= i < |r.rt.drivers| && r.rt.drivers[i].AwaitPlayback? && Some(r.rt.drivers[i].audio) == s.currentAudio
            ==> !r.rt.drivers[i].attached)
      && r.log.started == s.log.started && r.log.enqueued == s.log.enqueued
    ensures var r := Step(s, StopAll, guarded);
      Step(r, StopAll, guarded) == r.(rt := r.rt.(generation := r.rt.generation + 1))
  {
    var r := Step(s, StopAll, guarded);
    assert r.log.left + [] == r.log.left;
  }

  /** Removing a driver keeps the invariant. */
  lemma InvRemove(s: State, d: nat)
    requires Inv(s) && d < |s.rt.drivers|
    ensures Inv(WithDrivers(s, Remove(s.rt.drivers, d)))
  {
    var r := Remove(s.rt.drivers, d);
    forall i | 0 <= i < |r|
      ensures r[i].AwaitFetch? ==> r[i].gen <= s.rt.generation
      ensures r[i].item in s.log.left
    {
      var k := if i < d then i else i + 1;
      assert r[i] == s.rt.drivers[k];
    }
  }

  /** A driver start keeps the invariant. */
  lemma InvDriverStart(s: State)
    requires Inv(s)
    ensures Inv(DriverStart(s))
  {
    DriverStartSpec(s);
  }

  lemma InvEnqueue(s: State, text: string)
    requires Inv(s)
    ensures Inv(EnqueueStep(s, text))
  {
    if s.configured {
      ControllerReuse(s);
      var (s1, c) := ControllerStep(s);
      var s2 := Pushed(s1, Item(s1.rt.nextId, text, c));
      AppendAssoc(s2.log.left, s1.queue, [Item(s1.rt.nextId, text, c)]);
      assert s2.log.left + s2.queue == s2.log.enqueued;
      if !s2.isPlaying {
        DriverStartSpec(s2);
      }
    }
  }

  lemma InvResolve(s: State, d: nat, got: bool, guarded: bool)
    requires Inv(s) && d < |s.rt.drivers| && s.rt.drivers[d].AwaitFetch?
    ensures Inv(Resolve(s, d, got, guarded))
  {
    if guarded && s.rt.drivers[d].gen != s.rt.generation {
      InvRemove(s, d);
    } else if !s.isPlaying || !got {
      InvRemove(s, d);
      InvDriverStart(WithDrivers(s, Remove(s.rt.drivers, d)));
    }
  }

  lemma InvPlayback(s: State, d: nat, how: PlaybackOutcome, guarded: bool)
    requires Inv(s) && d < |s.rt.drivers| && s.rt.drivers[d].AwaitPlayback?
    ensures Inv(PlaybackStep(s, d, how, guarded))
  {
    if s.rt.drivers[d].attached || (how == PlayRejected && !guarded) {
      InvRemove(s, d);
      var t := Cleanup(WithDrivers(s, Remove(s.rt.drivers, d)));
      assert t == WithDrivers(Cleanup(s), Remove(s.rt.drivers, d));
      InvDriverStart(t);
    } else if how == PlayRejected {
      InvRemove(s, d);
    }
  }

  lemma InvStopAll(s: State)
    requires Inv(s)
    ensures Inv(StopAllStep(s))
  {
    var r := StopAllStep(s);
    assert r.log.left + r.queue == s.log.enqueued;
  }

  /** Every event keeps the invariant. */
  lemma {:induction false} InvStep(s: State, ev: Event, guarded: bool)
    requires Inv(s)
    ensures Inv(Step(s, ev, guarded))
  {
    match ev
    case Enqueue(text) => InvEnqueue(s, text);
    case FetchSettled(id, ok) =>
    case Resume(d) =>
      if CanResume(s, d) {
        InvResolve(s, d, s.rt.settled[s.rt.drivers[d].item.id], guarded);
      }
    case PlaybackDone(d, how) =>
      if d < |s.rt.drivers| && s.rt.drivers[d].AwaitPlayback? {
        InvPlayback(s, d, how, guarded);
      }
    case StopAll => InvStopAll(s);
  }

  /** Every state reachable from a state satisfying the invariant satisfies
      it; in particular the queue stays first-in first-out. */
  lemma {:induction false} InvRun(s: State, evs: seq<Event>, guarded: bool)
    requires Inv(s)
    ensures Inv(Run(s, evs, guarded))
    decreases |evs|
  {
    if evs != [] {
      InvStep(s, evs[0], guarded);
      InvRun(Step(s, evs[0], guarded), evs[1..], guarded);
    }
  }

  lemma InitInv(configured: bool)
    ensures Inv(Init(configured)) && Init(configured).queue == [] && !Init(configured).isPlaying
  {
  }

  /** In every run from the start, with or without the stop-generation
      check and whatever `stopAll` calls it holds, every started item was
      enqueued, and so is the item of every pending driver. */
  lemma StartedWereEnqueued(configured: bool, evs: seq<Event>, guarded: bool)
    ensures var r := Run(Init(configured), evs, guarded);
      && (forall k :: 0 <= k < |r.log.started| ==> r.log.started[k] in r.log.enqueued)
      && (forall i :: 0 <= i < |r.rt.drivers| ==> r.rt.drivers[i].item in r.log.enqueued)
  {
    InitInv(configured);
    InvRun(Init(configured), evs, guarded);
    InvEnqueued(Run(Init(configured), evs, guarded));
  }

  /** Nothing is queued and nothing plays. */
  predicate Quiet(s: State)
  {
    !s.isPlaying && s.queue == []
  }

  /** From a quiet state, every event other than `enqueue` leaves the state
      quiet and starts no audio: the `isPlaying` guard turns every resumed
      driver away. */
  lemma QuietStep(s: State, ev: Event, guarded: bool)
    requires Quiet(s) && !ev.Enqueue?
    ensures Quiet(Step(s, ev, guarded))
    ensures Step(s, ev, guarded).log.started == s.log.started
  {
  }

  lemma {:induction false} QuietRun(s: State, evs: seq<Event>, guarded: bool)
    requires Quiet(s)
    requires forall i :: 0 <= i < |evs| ==> !evs[i].Enqueue?
    ensures Quiet(Run(s, evs, guarded))
    ensures Run(s, evs, guarded).log.started == s.log.started
    decreases |evs|
  {
    if evs != [] {
      QuietStep(s, evs[0], guarded);
      QuietRun(Step(s, evs[0], guarded), evs[1..], guarded);
    }
  }

  /** After `stopAll`, as long as nothing is enqueued, no audio starts,
      whatever fetches settle, drivers resume or playbacks end. */
  lemma NoPlaybackAfterStop(s: State, evs: seq<Event>, guarded: bool)
    requires forall i :: 0 <= i < |evs| ==> !evs[i].Enqueue?
    ensures Run(Step(s, StopAll, guarded), evs, guarded).log.started == s.log.started
  {
    QuietRun(Step(s, StopAll, guarded), evs, guarded);
  }

  /** The `isPlaying` guard does not cover an `enqueue` after `stopAll`: the
      new item sets `isPlaying` again, and a driver still waiting for a fetch
      that had already settled with audio plays its item, which was enqueued
      before the stop. */
  lemma StalePlayAfterStop()
    ensures var before := Run(Init(true), [Enqueue("a"), FetchSettled(1, true)], false);
      var after := Run(Step(before, StopAll, false), [Enqueue("b"), Resume(0)], false);
      && before.log.enqueued == [Item(1, "a", 0)] && before.log.started == []
      && after.log.started == [Item(1, "a", 0)]
  {
    var s0 := Init(true);
    var s1 := Step(s0, Enqueue("a"), false);
    assert s1.rt.drivers == [AwaitFetch(Item(1, "a", 0), 0)] && s1.rt.inFlight == map[1 := 0];
    var s2 := Step(s1, FetchSettled(1, true), false);
    assert s2.rt.settled == map[1 := true];
    assert Run(s0, [Enqueue("a"), FetchSettled(1, true)], false) == s2 by {
      assert [Enqueue("a"), FetchSettled(1, true)][1..] == [FetchSettled(1, true)];
    }
    var s3 := Step(s2, StopAll, false);
    var s4 := Step(s3, Enqueue("b"), false);
    assert s4.isPlaying && s4.rt.drivers[0] == AwaitFetch(Item(1, "a", 0), 0);
    var s5 := Step(s4, Resume(0), false);
    assert s5.log.started == [Item(1, "a", 0)];
    assert Run(s3, [Enqueue("b"), Resume(0)], false) == s5 by {
      assert [Enqueue("b"), Resume(0)][1..] == [Resume(0)];
    }
  }

  /** The corrected model's invariant after a stop that left the counter at
      `mark` and the started log at length `k`: queued items, and drivers of
      the current stop-generation, hold items numbered from `mark` on, and so
      does every item started since. */
  predicate Fresh(s: State, mark: nat, k: nat)
  {
    && Inv(s)
    && mark <= s.rt.nextId
    && (forall i :: 0 <= i < |s.queue| ==> s.queue[i].id >= mark)
    && (forall i :: 0 <= i < |s.rt.drivers| && s.rt.drivers[i].AwaitFetch? && s.rt.drivers[i].gen == s.rt.generation
          ==> s.rt.drivers[i].item.id >= mark)
    && k <= |s.log.started|
    && (forall i :: k <= i < |s.log.started| ==> s.log.started[i].id >= mark)
  }

  lemma FreshDriverStart(s: State, mark: nat, k: nat)
    requires Fresh(s, mark, k) || (Fresh(s.(isPlaying := true), mark, k) && s.log.left + s.queue == s.log.enqueued)
    ensures Fresh(DriverStart(s), mark, k)
  {
    DriverStartSpec(s);
    if s.queue != [] {
      assert s.queue[0].id >= mark;
      forall i | 0 <= i < |s.queue[1..]|
        ensures s.queue[1..][i].id >= mark
      {
        assert s.queue[1..][i] == s.queue[i + 1];
      }
    }
  }

  lemma FreshRemove(s: State, d: nat, mark: nat, k: nat)
    requires Fresh(s, mark, k) && d < |s.rt.drivers|
    ensures Fresh(WithDrivers(s, Remove(s.rt.drivers, d)), mark, k)
  {
    InvRemove(s, d);
    var r := Remove(s.rt.drivers, d);
    forall i | 0 <= i < |r| && r[i].AwaitFetch? && r[i].gen == s.rt.generation
      ensures r[i].item.id >= mark
    {
      var j := if i < d then i else i + 1;
      assert r[i] == s.rt.drivers[j];
    }
  }

  lemma FreshEnqueue(s: State, text: string, mark: nat, k: nat)
    requires Fresh(s, mark, k)
    ensures Fresh(EnqueueStep(s, text), mark, k)
  {
    InvEnqueue(s, text);
    if s.configured {
      var (s1, c) := ControllerStep(s);
      var item := Item(s1.rt.nextId, text, c);
      var s2 := Pushed(s1, item);
      assert forall i :: 0 <= i < |s2.queue| ==> s2.queue[i].id >= mark;
      if !s2.isPlaying {
        AppendAssoc(s2.log.left, s1.queue, [item]);
        FreshDriverStart(s2, mark, k);
      }
    }
  }

  lemma FreshResolve(s: State, d: nat, got: bool, mark: nat, k: nat)
    requires Fresh(s, mark, k) && d < |s.rt.drivers| && s.rt.drivers[d].AwaitFetch?
    ensures Fresh(Resolve(s, d, got, true), mark, k)
  {
    InvResolve(s, d, got, true);
    if s.rt.drivers[d].gen != s.rt.generation {
      FreshRemove(s, d, mark, k);
    } else if !s.isPlaying || !got {
      FreshRemove(s, d, mark, k);
      FreshDriverStart(WithDrivers(s, Remove(s.rt.drivers, d)), mark, k);
    }
  }

  lemma FreshPlayback(s: State, d: nat, how: PlaybackOutcome, mark: nat, k: nat)
    requires Fresh(s, mark, k) && d < |s.rt.drivers| && s.rt.drivers[d].AwaitPlayback?
    ensures Fresh(PlaybackStep(s, d, how, true), mark, k)
  {
    InvPlayback(s, d, how, true);
    if s.rt.drivers[d].attached {
      FreshRemove(Cleanup(s), d, mark, k);
      FreshDriverStart(WithDrivers(Cleanup(s), Remove(s.rt.drivers, d)), mark, k);
    } else if how == PlayRejected {
      FreshRemove(s, d, mark, k);
    }
  }

  lemma FreshStopAll(s: State, mark: nat, k: nat)
    requires Fresh(s, mark, k)
    ensures Fresh(StopAllStep(s), mark, k)
  {
    InvStopAll(s);
    var r := StopAllStep(s);
    forall i | 0 <= i < |r.rt.drivers| && r.rt.drivers[i].AwaitFetch?
      ensures r.rt.drivers[i].gen != r.rt.generation
    {
      assert r.rt.drivers[i] == s.rt.drivers[i];
    }
  }

  /** Every event of the corrected model keeps `Fresh`. */
  lemma FreshStep(s: State, ev: Event, mark: nat, k: nat)
    requires Fresh(s, mark, k)
    ensures Fresh(Step(s, ev, true), mark, k)
  {
    match ev
    case Enqueue(text) => FreshEnqueue(s, text, mark, k);
    case FetchSettled(id, ok) =>
    case Resume(d) =>
      if CanResume(s, d) {
        FreshResolve(s, d, s.rt.settled[s.rt.drivers[d].item.id], mark, k);
      }
    case PlaybackDone(d, how) =>
      if d < |s.rt.drivers| && s.rt.drivers[d].AwaitPlayback? {
        FreshPlayback(s, d, how, mark, k);
      }
    case StopAll => FreshStopAll(s, mark, k);
  }

  lemma {:induction false} FreshRun(s: State, evs: seq<Event>, mark: nat, k: nat)
    requires Fresh(s, mark, k)
    ensures Fresh(Run(s, evs, true), mark, k)
    decreases |evs|
  {
    if evs != [] {
      FreshStep(s, evs[0], mark, k);
      FreshRun(Step(s, evs[0], true), evs[1..], mark, k);
    }
  }

  /** With the stop-generation check added to the guard, no item enqueued
      before a `stopAll` ever plays after it, whatever is enqueued later. */
  lemma GuardedNoStalePlay(s: State, evs: seq<Event>)
    requires Inv(s)
    ensures var r := Run(Step(s, StopAll, true), evs, true);
      && |s.log.started| <= |r.log.started|
      && forall i :: |s.log.started| <= i < |r.log.started| ==> r.log.started[i] !in s.log.enqueued
  {
    var t := StopAllStep(s);
    InvStopAll(s);
    forall i | 0 <= i < |t.rt.drivers| && t.rt.drivers[i].AwaitFetch?
      ensures t.rt.drivers[i].gen != t.rt.generation
    {
      assert t.rt.drivers[i] == s.rt.drivers[i];
    }
    assert Fresh(t, s.rt.nextId, |s.log.started|);
    FreshRun(t, evs, s.rt.nextId, |s.log.started|);
    var r := Run(t, evs, true);
    forall i | |s.log.started| <= i < |r.log.started|
      ensures r.log.started[i] !in s.log.enqueued
    {
      assert r.log.started[i].id >= s.rt.nextId;
    }
  }

  // ---- One driver at a time, in enqueue order ------------------------------

  /** A driver that can still act on the queue: one awaiting a fetch it
      started in the current stop-generation, or one whose audio still has
      its handlers. */
  predicate Live(x: Driver, generation: nat)
  {
    (x.AwaitFetch? && x.gen == generation) || (x.AwaitPlayback? && x.attached)
  }

  /** Every item of `a` was numbered before every item of `b`. */
  predicate Precedes(a: seq<Item>, b: seq<Item>)
  {
    forall i, j :: 0 <= i < |a| && 0 <= j < |b| ==> a[i].id < b[j].id
  }

  /** The items are in strictly increasing order of their numbers. */
  predicate Increasing(items: seq<Item>)
  {
    forall i, j :: 0 <= i < j < |items| ==> items[i].id < items[j].id
  }

  /** Every item is one of `enqueued` and numbered below `bound`. */
  predicate Issued(items: seq<Item>, enqueued: seq<Item>, bound: nat)
  {
    forall k :: 0 <= k < |items| ==> items[k] in enqueued && items[k].id < bound
  }

  /** The queue and the started items are each in enqueue order, every
      started item precedes every queued one, and all were handed out. */
  predicate Ordered(queue: seq<Item>, started: seq<Item>, enqueued: seq<Item>, bound: nat)
  {
    && Increasing(queue) && Increasing(started) && Precedes(started, queue)
    && Issued(queue, enqueued, bound) && Issued(started, enqueued, bound)
  }

  /** The items of the drivers. */
  function Items(drivers: seq<Driver>): (r: seq<Item>)
    ensures |r| == |drivers| && forall i :: 0 <= i < |drivers| ==> r[i] == drivers[i].item
  {
    seq(|drivers|, i requires 0 <= i < |drivers| => drivers[i].item)
  }

  /** At most one driver is live. */
  predicate OneLive(drivers: seq<Driver>, generation: nat)
  {
    forall i, j ::
      (0 <= i < |drivers| && 0 <= j < |drivers| && Live(drivers[i], generation) && Live(drivers[j], generation)) ==> i == j
  }

  lemma FirstTwoLive(drivers: seq<Driver>, generation: nat)
    ensures AllLive(drivers, generation) && |drivers| > 1 ==> Live(drivers[0], generation) && Live(drivers[1], generation)
  {
  }

  /** When every driver is live and at most one is, there is at most one. */
  lemma AtMostOne(drivers: seq<Driver>, generation: nat)
    requires AllLive(drivers, generation) && OneLive(drivers, generation)
    ensures |drivers| <= 1
  {
    FirstTwoLive(drivers, generation);
  }

  predicate NoLive(drivers: seq<Driver>, generation: nat)
  {
    forall i :: 0 <= i < |drivers| ==> !Live(drivers[i], generation)
  }

  predicate AllLive(drivers: seq<Driver>, generation: nat)
  {
    forall i :: 0 <= i < |drivers| ==> Live(drivers[i], generation)
  }

  /** What a live driver knows: the queue is playing; awaiting a fetch, its
      item comes after every started item and before every queued one;
      awaiting playback, its audio is the current audio. */
  predicate LiveKnown(drivers: seq<Driver>, generation: nat, playing: bool, started: seq<Item>, queue: seq<Item>, audio: Option<nat>)
  {
    forall i :: 0 <= i < |drivers| && Live(drivers[i], generation) ==>
      && playing
      && (drivers[i].AwaitFetch? ==> Precedes(started, [drivers[i].item]) && Precedes([drivers[i].item], queue))
      && (drivers[i].AwaitPlayback? ==> audio == Some(drivers[i].audio))
  }

  /** The ordering invariant: at most one live driver, and it holds only
      while the queue is playing; items start in enqueue order, each after
      the items already started and before those still queued; and, as
      written (`!guarded`), every driver is live. */
  predicate Serial(s: State, guarded: bool)
  {
    && Inv(s)
    && Ordered(s.queue, s.log.started, s.log.enqueued, s.rt.nextId)
    && Issued(Items(s.rt.drivers), s.log.enqueued, s.rt.nextId)
    && OneLive(s.rt.drivers, s.rt.generation)
    && LiveKnown(s.rt.drivers, s.rt.generation, s.isPlaying, s.log.started, s.queue, s.currentAudio)
    && (!guarded ==> AllLive(s.rt.drivers, s.rt.generation))
  }

  lemma SerialInit(configured: bool, guarded: bool)
    ensures Serial(Init(configured), guarded)
  {
    var s := Init(configured);
    InitInv(configured);
    assert Items(s.rt.drivers) == [];
    assert Ordered([], [], [], 0) && Issued([], [], 0);
    assert OneLive([], 0) && AllLive([], 0) && LiveKnown([], 0, false, [], [], None);
  }

  /** Issued items stay issued as the log and the counter grow. */
  lemma IssuedGrow(items: seq<Item>, enqueued: seq<Item>, bound: nat, more: seq<Item>, bound2: nat)
    requires Issued(items, enqueued, bound) && bound <= bound2
    ensures Issued(items, enqueued + more, bound2)
  {
  }

  /** A new item numbered from the counter on joins the end of the queue. */
  lemma OrderedPush(queue: seq<Item>, started: seq<Item>, enqueued: seq<Item>, bound: nat, item: Item, bound2: nat)
    requires Ordered(queue, started, enqueued, bound) && bound <= item.id < bound2
    ensures Ordered(queue + [item], started, enqueued + [item], bound2)
  {
    IssuedGrow(queue, enqueued, bound, [item], bound2);
    IssuedGrow(started, enqueued, bound, [item], bound2);
    var q := queue + [item];
    assert forall k :: 0 <= k < |queue| ==> q[k] == queue[k];
  }

  /** A live driver's item precedes a new item numbered from the counter on. */
  lemma LiveKnownPush(drivers: seq<Driver>, g: nat, playing: bool, started: seq<Item>, queue: seq<Item>, audio: Option<nat>,
                      enqueued: seq<Item>, bound: nat, item: Item)
    requires LiveKnown(drivers, g, playing, started, queue, audio)
    requires Issued(Items(drivers), enqueued, bound) && bound <= item.id
    ensures LiveKnown(drivers, g, playing, started, queue + [item], audio)
  {
    forall i | 0 <= i < |drivers| && Live(drivers[i], g) && drivers[i].AwaitFetch?
      ensures Precedes([drivers[i].item], queue + [item])
    {
      assert Items(drivers)[i] == drivers[i].item;
      assert forall k :: 0 <= k < |queue| ==> (queue + [item])[k] == queue[k];
    }
  }

  /** The head of the queue follows the started items and precedes the rest. */
  lemma OrderedPop(queue: seq<Item>, started: seq<Item>, enqueued: seq<Item>, bound: nat)
    requires Ordered(queue, started, enqueued, bound) && queue != []
    ensures Ordered(queue[1..], started, enqueued, bound)
    ensures Precedes(started, [queue[0]]) && Precedes([queue[0]], queue[1..])
    ensures queue[0] in enqueued && queue[0].id < bound
  {
    assert forall k :: 0 <= k < |queue[1..]| ==> queue[1..][k] == queue[k + 1];
  }

  /** A driver's item that follows the started items and precedes the queue
      starts next. */
  lemma OrderedStart(queue: seq<Item>, started: seq<Item>, enqueued: seq<Item>, bound: nat, x: Item, bound2: nat)
    requires Ordered(queue, started, enqueued, bound) && bound <= bound2
    requires Precedes(started, [x]) && Precedes([x], queue) && x in enqueued && x.id < bound
    ensures Ordered(queue, started + [x], enqueued, bound2)
  {
    var t := started + [x];
    assert forall k :: 0 <= k < |started| ==> t[k] == started[k];
    assert t[|started|] == x;
    IssuedGrow(queue, enqueued, bound, [], bound2);
    assert enqueued + [] == enqueued;
  }

  /** Removing a driver keeps what holds of the others; removing the only
      live one leaves none. */
  lemma DriversRemove(drivers: seq<Driver>, d: nat, g: nat, enqueued: seq<Item>, bound: nat,
                      playing: bool, started: seq<Item>, queue: seq<Item>, audio: Option<nat>)
    requires d < |drivers|
    ensures var r := Remove(drivers, d);
      && (Issued(Items(drivers), enqueued, bound) ==> Issued(Items(r), enqueued, bound))
      && (OneLive(drivers, g) ==> OneLive(r, g))
      && (AllLive(drivers, g) ==> AllLive(r, g))
      && (LiveKnown(drivers, g, playing, started, queue, audio) ==> LiveKnown(r, g, playing, started, queue, audio))
      && (OneLive(drivers, g) && Live(drivers[d], g) ==> NoLive(r, g))
  {
    var r := Remove(drivers, d);
    assert forall i :: 0 <= i < |r| ==> r[i] == drivers[if i < d then i else i + 1];
  }

  /** Removing a driver keeps the ordering invariant; removing the live one
      leaves none. */
  lemma SerialRemove(s: State, d: nat, guarded: bool)
    requires Serial(s, guarded) && d < |s.rt.drivers|
    ensures Serial(WithDrivers(s, Remove(s.rt.drivers, d)), guarded)
    ensures Live(s.rt.drivers[d], s.rt.generation) ==> NoLive(Remove(s.rt.drivers, d), s.rt.generation)
  {
    InvRemove(s, d);
    DriversRemove(s.rt.drivers, d, s.rt.generation, s.log.enqueued, s.rt.nextId,
                  s.isPlaying, s.log.started, s.queue, s.currentAudio);
  }

  /** A new live driver joins drivers none of which is live. */
  lemma DriversPush(drivers: seq<Driver>, g: nat, enqueued: seq<Item>, bound: nat,
                    started: seq<Item>, queue: seq<Item>, audio: Option<nat>, x: Item)
    requires Issued(Items(drivers), enqueued, bound) && NoLive(drivers, g)
    requires x in enqueued && x.id < bound && Precedes(started, [x]) && Precedes([x], queue)
    ensures var ds := drivers + [AwaitFetch(x, g)];
      && Issued(Items(ds), enqueued, bound)
      && OneLive(ds, g)
      && (AllLive(drivers, g) ==> AllLive(ds, g))
      && LiveKnown(ds, g, true, started, queue, audio)
  {
    var ds := drivers + [AwaitFetch(x, g)];
    assert forall i :: 0 <= i < |drivers| ==> ds[i] == drivers[i];
    assert ds[|drivers|] == AwaitFetch(x, g);
  }

  /** A driver start with no live driver left starts at most one, for the
      head of the queue. */
  lemma SerialDriverStart(t: State, guarded: bool)
    requires Serial(t, guarded) && NoLive(t.rt.drivers, t.rt.generation) && t.isPlaying
    ensures Serial(DriverStart(t), guarded)
  {
    InvDriverStart(t);
    if t.queue != [] {
      OrderedPop(t.queue, t.log.started, t.log.enqueued, t.rt.nextId);
      DriversPush(t.rt.drivers, t.rt.generation, t.log.enqueued, t.rt.nextId,
                  t.log.started, t.queue[1..], t.currentAudio, t.queue[0]);
    }
  }

  lemma SerialEnqueue(s: State, text: string, guarded: bool)
    requires Serial(s, guarded)
    ensures Serial(EnqueueStep(s, text), guarded)
  {
    InvEnqueue(s, text);
    if s.configured {
      var (s1, c) := ControllerStep(s);
      var item := Item(s1.rt.nextId, text, c);
      var s2 := Pushed(s1, item);
      assert s1.rt.nextId >= s.rt.nextId && s1.rt.drivers == s.rt.drivers && s1.log == s.log && s1.queue == s.queue;
      OrderedPush(s.queue, s.log.started, s.log.enqueued, s.rt.nextId, item, s2.rt.nextId);
      IssuedGrow(Items(s.rt.drivers), s.log.enqueued, s.rt.nextId, [item], s2.rt.nextId);
      LiveKnownPush(s.rt.drivers, s.rt.generation, s.isPlaying, s.log.started, s.queue, s.currentAudio,
                    s.log.enqueued, s.rt.nextId, item);
      if s2.isPlaying {
        assert Serial(s2, guarded);
      } else {
        AppendAssoc(s2.log.left, s1.queue, [item]);
        assert Serial(s2.(isPlaying := true), guarded);
        SerialDriverStart(s2.(isPlaying := true), guarded);
        assert DriverStart(s2.(isPlaying := true)) == DriverStart(s2);
      }
    }
  }

  /** A live driver that gets its audio starts its item and becomes the
      only attached playback. */
  lemma SerialPlay(s: State, d: nat, guarded: bool)
    requires Serial(s, guarded) && d < |s.rt.drivers| && s.rt.drivers[d].AwaitFetch?
    requires s.rt.drivers[d].gen == s.rt.generation && s.isPlaying
    ensures Serial(Resolve(s, d, true, guarded), guarded)
  {
    InvResolve(s, d, true, guarded);
    var x := s.rt.drivers[d];
    var r := Resolve(s, d, true, guarded);
    assert Live(x, s.rt.generation);
    OrderedStart(s.queue, s.log.started, s.log.enqueued, s.rt.nextId, x.item, r.rt.nextId);
    var ds := r.rt.drivers;
    assert forall i :: 0 <= i < |ds| && i != d ==> ds[i] == s.rt.drivers[i] && !Live(ds[i], s.rt.generation);
    assert ds[d] == AwaitPlayback(x.item, r.currentAudio.value, true);
    IssuedGrow(Items(s.rt.drivers), s.log.enqueued, s.rt.nextId, [], r.rt.nextId);
    assert s.log.enqueued + [] == s.log.enqueued;
    assert Items(ds) == Items(s.rt.drivers);
  }

  lemma SerialResolve(s: State, d: nat, got: bool, guarded: bool)
    requires Serial(s, guarded) && d < |s.rt.drivers| && s.rt.drivers[d].AwaitFetch?
    ensures Serial(Resolve(s, d, got, guarded), guarded)
  {
    var x := s.rt.drivers[d];
    if guarded && x.gen != s.rt.generation {
      SerialRemove(s, d, guarded);
    } else if !s.isPlaying || !got {
      assert Live(x, s.rt.generation);
      SerialRemove(s, d, guarded);
      SerialDriverStart(WithDrivers(s, Remove(s.rt.drivers, d)), guarded);
    } else {
      SerialPlay(s, d, guarded);
    }
  }

  lemma SerialPlayback(s: State, d: nat, how: PlaybackOutcome, guarded: bool)
    requires Serial(s, guarded) && d < |s.rt.drivers| && s.rt.drivers[d].AwaitPlayback?
    ensures Serial(PlaybackStep(s, d, how, guarded), guarded)
  {
    if s.rt.drivers[d].attached || (how == PlayRejected && !guarded) {
      assert Live(s.rt.drivers[d], s.rt.generation);
      SerialRemove(s, d, guarded);
      var t := WithDrivers(s, Remove(s.rt.drivers, d));
      assert Cleanup(t) == WithDrivers(Cleanup(s), Remove(s.rt.drivers, d));
      SerialDriverStart(Cleanup(t), guarded);
    } else if how == PlayRejected {
      SerialRemove(s, d, guarded);
    }
  }

  /** In the corrected model `stopAll` leaves no live driver: every pending
      fetch belongs to an old stop-generation and the current audio loses
      its handlers. */
  lemma SerialStopAll(s: State)
    requires Serial(s, true)
    ensures Serial(StopAllStep(s), true) && NoLive(StopAllStep(s).rt.drivers, StopAllStep(s).rt.generation)
  {
    InvStopAll(s);
    var r := StopAllStep(s);
    forall i | 0 <= i < |r.rt.drivers|
      ensures r.rt.drivers[i].item == s.rt.drivers[i].item && !Live(r.rt.drivers[i], r.rt.generation)
    {
      var x := s.rt.drivers[i];
      if x.AwaitPlayback? && x.attached {
        assert Live(x, s.rt.generation);
      }
    }
    assert Items(r.rt.drivers) == Items(s.rt.drivers);
  }

  /** Every event keeps the ordering invariant; as written only as long as
      no `stopAll` comes. */
  lemma {:induction false} SerialStep(s: State, ev: Event, guarded: bool)
    requires Serial(s, guarded) && (guarded || !ev.StopAll?)
    ensures Serial(Step(s, ev, guarded), guarded)
  {
    match ev
    case Enqueue(text) => SerialEnqueue(s, text, guarded);
    case FetchSettled(id, ok) =>
    case Resume(d) =>
      if CanResume(s, d) {
        SerialResolve(s, d, s.rt.settled[s.rt.drivers[d].item.id], guarded);
      }
    case PlaybackDone(d, how) =>
      if d < |s.rt.drivers| && s.rt.drivers[d].AwaitPlayback? {
        SerialPlayback(s, d, how, guarded);
      }
    case StopAll => SerialStopAll(s);
  }

  lemma {:induction false} SerialRun(s: State, evs: seq<Event>, guarded: bool)
    requires Serial(s, guarded)
    requires guarded || forall i :: 0 <= i < |evs| ==> !evs[i].StopAll?
    ensures Serial(Run(s, evs, guarded), guarded)
    decreases |evs|
  {
    if evs != [] {
      SerialStep(s, evs[0], guarded);
      SerialRun(Step(s, evs[0], guarded), evs[1..], guarded);
    }
  }

  /** As written, as long as `stopAll` is never called, at most one driver
      is pending, and items start one after another in the order they were
      enqueued. */
  lemma PlaysInOrder(configured: bool, evs: seq<Event>)
    requires forall i :: 0 <= i < |evs| ==> !evs[i].StopAll?
    ensures var r := Run(Init(configured), evs, false);
      && |r.rt.drivers| <= 1
      && Increasing(r.log.started)
      && (forall k :: 0 <= k < |r.log.started| ==> r.log.started[k] in r.log.enqueued)
  {
    SerialInit(configured, false);
    SerialRun(Init(configured), evs, false);
    var r := Run(Init(configured), evs, false);
    AtMostOne(r.rt.drivers, r.rt.generation);
  }

  /** With the stop-generation check, in every run: at most one driver is
      live, the only attached audio is the current one, and items start one
      after another in the order they were enqueued. */
  lemma GuardedPlaysInOrder(configured: bool, evs: seq<Event>)
    ensures var r := Run(Init(configured), evs, true);
      && OneLive(r.rt.drivers, r.rt.generation)
      && (forall i :: 0 <= i < |r.rt.drivers| && r.rt.drivers[i].AwaitPlayback? && r.rt.drivers[i].attached
            ==> r.currentAudio == Some(r.rt.drivers[i].audio))
      && Increasing(r.log.started)
      && (forall k :: 0 <= k < |r.log.started| ==> r.log.started[k] in r.log.enqueued)
  {
    SerialInit(configured, true);
    SerialRun(Init(configured), evs, true);
    SerialAttached(Run(Init(configured), evs, true));
  }

  /** Under the ordering invariant an attached playback holds the current audio. */
  lemma SerialAttached(s: State)
    requires Serial(s, true)
    ensures forall i :: 0 <= i < |s.rt.drivers| && s.rt.drivers[i].AwaitPlayback? && s.rt.drivers[i].attached ==>
      s.currentAudio == Some(s.rt.drivers[i].audio)
  {
    assert forall i :: 0 <= i < |s.rt.drivers| && s.rt.drivers[i].AwaitPlayback? && s.rt.drivers[i].attached ==>
      Live(s.rt.drivers[i], s.rt.generation);
  }

  /** In the corrected model a driver that is not live can only vanish: a
      stale fetch result or a rejected `play()` of detached audio removes it
      and changes nothing else, and the end of detached audio changes nothing. */
  lemma StaleDriversEnd(s: State, ev: Event)
    requires ev.Resume? || ev.PlaybackDone?
    requires ev.Resume? ==> CanResume(s, ev.driver) && !Live(s.rt.drivers[ev.driver], s.rt.generation)
    requires ev.PlaybackDone? ==>
      ev.driver < |s.rt.drivers| && s.rt.drivers[ev.driver].AwaitPlayback? && !s.rt.drivers[ev.driver].attached
    ensures ev.Resume? || ev.how == PlayRejected ==> Step(s, ev, true) == WithDrivers(s, Remove(s.rt.drivers, ev.driver))
    ensures ev.PlaybackDone? && ev.how != PlayRejected ==> Step(s, ev, true) == s
  {
  }

  /** A run of two events is the two steps in turn. */
  lemma RunTwo(s: State, e1: Event, e2: Event, guarded: bool)
    ensures Run(s, [e1, e2], guarded) == Step(Step(s, e1, guarded), e2, guarded)
  {
    assert [e1, e2][1..] == [e2] && [e2][1..] == [];
    assert Run(s, [e1, e2], guarded) == Run(Step(s, e1, guarded), [e2], guarded);
    assert Run(Step(s, e1, guarded), [e2], guarded) == Run(Step(Step(s, e1, guarded), e2, guarded), [], guarded);
  }

  // The run of `OverlapAfterStop`, two events at a time.

  lemma OverlapStop()
    ensures var r := Run(Init(true), [Enqueue("a"), StopAll], false);
      && r.configured && !r.isPlaying && r.queue == [] && r.abortController.None? && r.currentAudio.None?
      && r.rt.drivers == [AwaitFetch(Item(1, "a", 0), 0)] && r.rt.aborted == {0}
      && 1 in r.rt.inFlight && r.rt.inFlight[1] == 0 && r.rt.settled == map[]
      && r.rt.nextId == 2 && r.rt.generation == 1 && r.log.started == []
  {
    RunTwo(Init(true), Enqueue("a"), StopAll, false);
  }

  lemma OverlapRequeue(s: State)
    requires s.configured && !s.isPlaying && s.queue == [] && s.abortController.None? && s.currentAudio.None?
    requires s.rt.drivers == [AwaitFetch(Item(1, "a", 0), 0)] && s.rt.aborted == {0}
    requires 1 in s.rt.inFlight && s.rt.inFlight[1] == 0 && s.rt.settled == map[]
    requires s.rt.nextId == 2 && s.rt.generation == 1 && s.log.started == []
    ensures var r := Run(s, [Enqueue("b"), Enqueue("c")], false);
      && r.isPlaying && r.queue == [Item(4, "c", 2)] && r.currentAudio.None?
      && r.rt.drivers == [AwaitFetch(Item(1, "a", 0), 0), AwaitFetch(Item(3, "b", 2), 1)]
      && r.rt.aborted == {0} && r.rt.settled == map[]
      && 1 in r.rt.inFlight && r.rt.inFlight[1] == 0 && 3 in r.rt.inFlight && r.rt.inFlight[3] == 2 && 4 in r.rt.inFlight && r.rt.inFlight[4] == 2
      && r.rt.nextId == 5 && r.rt.generation == 1 && r.log.started == []
  {
    RunTwo(s, Enqueue("b"), Enqueue("c"), false);
  }

  lemma OverlapSkip(s: State)
    requires s.isPlaying && s.queue == [Item(4, "c", 2)] && s.currentAudio.None?
    requires s.rt.drivers == [AwaitFetch(Item(1, "a", 0), 0), AwaitFetch(Item(3, "b", 2), 1)]
    requires s.rt.aborted == {0} && s.rt.settled == map[]
    requires 1 in s.rt.inFlight && s.rt.inFlight[1] == 0 && 3 in s.rt.inFlight && s.rt.inFlight[3] == 2 && 4 in s.rt.inFlight && s.rt.inFlight[4] == 2
    requires s.rt.nextId == 5 && s.rt.generation == 1 && s.log.started == []
    ensures var r := Run(s, [FetchSettled(1, true), Resume(0)], false);
      && r.isPlaying && r.queue == []
      && r.rt.drivers == [AwaitFetch(Item(3, "b", 2), 1), AwaitFetch(Item(4, "c", 2), 1)]
      && r.rt.aborted == {0} && 3 in r.rt.inFlight && r.rt.inFlight[3] == 2 && 4 in r.rt.inFlight && r.rt.inFlight[4] == 2
      && 3 !in r.rt.settled && 4 !in r.rt.settled
      && r.rt.nextId == 5 && r.log.started == []
  {
    RunTwo(s, FetchSettled(1, true), Resume(0), false);
  }

  lemma OverlapFirstPlay(s: State)
    requires s.isPlaying && s.queue == []
    requires s.rt.drivers == [AwaitFetch(Item(3, "b", 2), 1), AwaitFetch(Item(4, "c", 2), 1)]
    requires s.rt.aborted == {0} && 3 in s.rt.inFlight && s.rt.inFlight[3] == 2 && 4 in s.rt.inFlight && s.rt.inFlight[4] == 2
    requires 3 !in s.rt.settled && 4 !in s.rt.settled
    requires s.rt.nextId == 5 && s.log.started == []
    ensures var r := Run(s, [FetchSettled(4, true), Resume(1)], false);
      && r.isPlaying
      && r.rt.drivers == [AwaitFetch(Item(3, "b", 2), 1), AwaitPlayback(Item(4, "c", 2), 6, true)]
      && 3 in r.rt.inFlight && r.rt.inFlight[3] !in r.rt.aborted && 3 !in r.rt.settled
      && r.rt.nextId == 7 && r.log.started == [Item(4, "c", 2)]
  {
    RunTwo(s, FetchSettled(4, true), Resume(1), false);
  }

  lemma OverlapSecondPlay(s: State)
    requires s.isPlaying
    requires s.rt.drivers == [AwaitFetch(Item(3, "b", 2), 1), AwaitPlayback(Item(4, "c", 2), 6, true)]
    requires 3 in s.rt.inFlight && s.rt.inFlight[3] !in s.rt.aborted && 3 !in s.rt.settled
    requires s.rt.nextId == 7 && s.log.started == [Item(4, "c", 2)]
    ensures var r := Run(s, [FetchSettled(3, true), Resume(0)], false);
      && r.rt.drivers == [AwaitPlayback(Item(3, "b", 2), 8, true), AwaitPlayback(Item(4, "c", 2), 6, true)]
      && r.log.started == [Item(4, "c", 2), Item(3, "b", 2)]
  {
    RunTwo(s, FetchSettled(3, true), Resume(0), false);
  }

  /** As written, `stopAll` followed by two `enqueue` calls while the first
      item's fetch is pending leaves two drivers: the old one wakes with no
      audio, does not stop because `isPlaying` is set again, and takes the
      third item. Both then play at once, and the third item starts before
      the second. The run is written two events at a time. */
  lemma OverlapAfterStop()
    ensures var s1 := Run(Init(true), [Enqueue("a"), StopAll], false);
      var s2 := Run(s1, [Enqueue("b"), Enqueue("c")], false);
      var s3 := Run(s2, [FetchSettled(1, true), Resume(0)], false);
      var s4 := Run(s3, [FetchSettled(4, true), Resume(1)], false);
      var r := Run(s4, [FetchSettled(3, true), Resume(0)], false);
      && r.log.started == [Item(4, "c", 2), Item(3, "b", 2)]
      && r.rt.drivers == [AwaitPlayback(Item(3, "b", 2), 8, true), AwaitPlayback(Item(4, "c", 2), 6, true)]
  {
    var s1 := Run(Init(true), [Enqueue("a"), StopAll], false);
    OverlapStop();
    var s2 := Run(s1, [Enqueue("b"), Enqueue("c")], false);
    OverlapRequeue(s1);
    var s3 := Run(s2, [FetchSettled(1, true), Resume(0)], false);
    OverlapSkip(s2);
    var s4 := Run(s3, [FetchSettled(4, true), Resume(1)], false);
    OverlapFirstPlay(s3);
    OverlapSecondPlay(s4);
  }

  /** The queue object itself, as written: its fields change in place, and
      every method moves the object from one state of the event model to the
      next one, without the stop-generation check. */
  class TtsQueue {
    /** Whether the API key and the voice are configured. */
    const configured: bool
    var queue: seq<Item>
    var isPlaying: bool
    var abortController: Option<nat>
    var currentAudio: Option<nat>
    var currentBlobUrl: Option<nat>
    var rt: Runtime
    ghost var log: Log

    ghost function Model(): State
      reads this
    {
      State(configured, queue, isPlaying, abortController, currentAudio, currentBlobUrl, rt, log)
    }

    ghost predicate Valid()
      reads this
    {
      Inv(Model())
    }

    constructor (configured: bool)
      ensures Model() == Init(configured) && Valid()
    {
      this.configured := configured;
      queue := [];
      isPlaying := false;
      abortController := None;
      currentAudio := None;
      currentBlobUrl := None;
      rt := Runtime({}, map[], map[], [], 0, 0);
      log := Log([], [], []);
    }

    method GetOrCreateAbortController() returns (c: nat)
      modifies this
      ensures (Model(), c) == ControllerStep(old(Model()))
    {
      if abortController.None? || abortController.value in rt.aborted {
        abortController := Some(rt.nextId);
        rt := rt.(nextId := rt.nextId + 1);
      }
      c := abortController.value;
    }

    method CleanupCurrent()
      modifies this
      ensures Model() == Cleanup(old(Model()))
    {
      if currentBlobUrl.Some? {
        currentBlobUrl := None;
      }
      currentAudio := None;
    }

    /** The synchronous start of `playNext`. */
    method PlayNext()
      modifies this
      ensures Model() == DriverStart(old(Model()))
    {
      if |queue| == 0 {
        isPlaying := false;
        return;
      }
      isPlaying := true;
      var item := queue[0];
      queue := queue[1..];
      log := log.(left := log.left + [item]);
      rt := rt.(drivers := rt.drivers + [AwaitFetch(item, rt.generation)]);
    }

    method Enqueue(text: string)
      requires Valid()
      modifies this
      ensures Valid() && Model() == Step(old(Model()), Event.Enqueue(text), false)
    {
      InvEnqueue(Model(), text);
      if !configured {
        return;
      }
      var c := GetOrCreateAbortController();
      var item := Item(rt.nextId, text, c);
      rt := rt.(inFlight := rt.inFlight[item.id := c], nextId := rt.nextId + 1);
      queue := queue + [item];
      log := log.(enqueued := log.enqueued + [item]);
      if !isPlaying {
        PlayNext();
      }
    }

    method StopAll()
      modifies this
      ensures Model() == Step(old(Model()), Event.StopAll, false)
    {
      if abortController.Some? {
        rt := rt.(aborted := rt.aborted + {abortController.value});
        abortController := None;
      }
      if currentAudio.Some? {
        rt := rt.(drivers := Detach(rt.drivers, currentAudio.value));
      }
      CleanupCurrent();
      log := log.(left := log.left + queue);
      queue := [];
      isPlaying := false;
      rt := rt.(generation := rt.generation + 1);
    }

    /** The fetch of item `id` settles. */
    method FetchSettled(id: nat, ok: bool)
      requires Valid() && id in rt.inFlight
      modifies this
      ensures Valid() && Model() == Step(old(Model()), Event.FetchSettled(id, ok), false)
    {
      rt := rt.(settled := rt.settled[id := ok && rt.inFlight[id] !in rt.aborted], inFlight := rt.inFlight - {id});
    }

    /** Driver `d` resumes after the `await` on its item's fetch. */
    method Resume(d: nat)
      requires Valid() && CanResume(Model(), d)
      modifies this
      ensures Valid() && Model() == Step(old(Model()), Event.Resume(d), false)
    {
      InvResolve(Model(), d, rt.settled[rt.drivers[d].item.id], false);
      var item := rt.drivers[d].item;
      var blob := rt.settled[item.id];
      if !isPlaying || !blob {
        rt := rt.(drivers := Remove(rt.drivers, d));
        PlayNext();
        return;
      }
      currentBlobUrl := Some(rt.nextId);
      currentAudio := Some(rt.nextId + 1);
      rt := rt.(drivers := rt.drivers[d := AwaitPlayback(item, rt.nextId + 1, true)], nextId := rt.nextId + 2);
      log := log.(started := log.started + [item]);
    }

    /** The playback that driver `d` waits for ends. */
    method PlaybackDone(d: nat, how: PlaybackOutcome)
      requires Valid() && d < |rt.drivers| && rt.drivers[d].AwaitPlayback?
      modifies this
      ensures Valid() && Model() == Step(old(Model()), Event.PlaybackDone(d, how), false)
    {
      InvPlayback(Model(), d, how, false);
      if how == PlayRejected || rt.drivers[d].attached {
        CleanupCurrent();
        rt := rt.(drivers := Remove(rt.drivers, d));
        PlayNext();
      }
    }
  }
}
