/** The proximity-sensor controller of a call: one switch, driven by the calls in progress, the
    audio session and the current output route. */
module Proximity {
  type Uuid = nat

  /** outputs is the history of calls to setMonitoring. */
  datatype Prox = Prox(calls: map<Uuid, bool>, audioActive: bool, enabled: bool, outputs: seq<bool>)

  const OFF := Prox(map[], false, false, [])

  /** Audio is active, some call is voice, none is video, and the receiver is the route. */
  predicate Wanted(calls: map<Uuid, bool>, audioActive: bool, receiver: bool) {
    audioActive && false in calls.Values && true !in calls.Values && receiver
  }

  function Refresh(p: Prox, receiver: bool): Prox {
    var next := Wanted(p.calls, p.audioActive, receiver);
    if next == p.enabled then p else p.(enabled := next, outputs := p.outputs + [next])
  }

  function Start(p: Prox, uuid: Uuid, hasVideo: bool, receiver: bool): Prox {
    Refresh(p.(calls := p.calls[uuid := hasVideo]), receiver)
  }

  function End(p: Prox, uuid: Uuid, receiver: bool): Prox {
    Refresh(p.(calls := p.calls - {uuid}), receiver)
  }

  function SetAudioActive(p: Prox, active: bool, receiver: bool): Prox {
    Refresh(p.(audioActive := active), receiver)
  }

  function Reset(p: Prox, receiver: bool): Prox {
    Refresh(p.(calls := map[], audioActive := false), receiver)
  }

  class Controller {
    var calls: map<Uuid, bool>
    var audioActive: bool
    var enabled: bool
    var outputs: seq<bool>

    constructor ()
      ensures View() == OFF
    {
      calls, audioActive, enabled, outputs := map[], false, false, [];
    }

    ghost function View(): Prox
      reads this
    {
      Prox(calls, audioActive, enabled, outputs)
    }

    method RefreshOutput(receiver: bool)
      modifies this
      ensures View() == Refresh(old(View()), receiver)
    {
      var next := audioActive && false in calls.Values && true !in calls.Values && receiver;
      if next == enabled {
        return;
      }
      outputs := outputs + [next];
      enabled := next;
    }

    method StartCall(uuid: Uuid, hasVideo: bool, receiver: bool)
      modifies this
      ensures View() == Start(old(View()), uuid, hasVideo, receiver)
    {
      calls := calls[uuid := hasVideo];
      RefreshOutput(receiver);
    }

    method EndCall(uuid: Uuid, receiver: bool)
      modifies this
      ensures View() == End(old(View()), uuid, receiver)
    {
      calls := calls - {uuid};
      RefreshOutput(receiver);
    }

    method SetAudio(active: bool, receiver: bool)
      modifies this
      ensures View() == SetAudioActive(old(View()), active, receiver)
    {
      audioActive := active;
      RefreshOutput(receiver);
    }

    method ResetAll(receiver: bool)
      modifies this
      ensures View() == Reset(old(View()), receiver)
    {
      calls := map[];
      audioActive := false;
      RefreshOutput(receiver);
    }
  }

  // ---------------------------------------------------------------- runs

  datatype Event =
    | Started(uuid: Uuid, hasVideo: bool, receiver: bool)
    | Ended(uuid: Uuid, receiver: bool)
    | AudioChanged(active: bool, receiver: bool)
    | RouteChanged(receiver: bool)
    | WasReset(receiver: bool)

  function Step(p: Prox, e: Event): Prox {
    match e
    case Started(uuid, hasVideo, receiver) => Start(p, uuid, hasVideo, receiver)
    case Ended(uuid, receiver) => End(p, uuid, receiver)
    case AudioChanged(active, receiver) => SetAudioActive(p, active, receiver)
    case RouteChanged(receiver) => Refresh(p, receiver)
    case WasReset(receiver) => Reset(p, receiver)
  }

  function Run(es: seq<Event>): Prox {
    if es == [] then OFF else Step(Run(es[..|es| - 1]), es[|es| - 1])
  }

  // The condition, computed from the events alone and without the switch.

  function CallsAfter(es: seq<Event>): map<Uuid, bool> {
    if es == [] then map[]
    else
      var before := CallsAfter(es[..|es| - 1]);
      match es[|es| - 1]
      case Started(uuid, hasVideo, _) => before[uuid := hasVideo]
      case Ended(uuid, _) => before - {uuid}
      case WasReset(_) => map[]
      case _ => before
  }

  function AudioAfter(es: seq<Event>): bool {
    if es == [] then false
    else
      match es[|es| - 1]
      case AudioChanged(active, _) => active
      case WasReset(_) => false
      case _ => AudioAfter(es[..|es| - 1])
  }

  predicate WantedAfter(es: seq<Event>) {
    es != [] && Wanted(CallsAfter(es), AudioAfter(es), es[|es| - 1].receiver)
  }

  // The condition in terms of positions in the run.

  /** The event ends or replaces what was known about a call. */
  predicate Replaces(e: Event, uuid: Uuid) {
    e.WasReset? || ((e.Started? || e.Ended?) && e.uuid == uuid)
  }

  /** Event n started a call, with or without video, and nothing ended or replaced it since. */
  ghost predicate InProgress(es: seq<Event>, n: nat, hasVideo: bool) {
    && n < |es| && es[n].Started? && es[n].hasVideo == hasVideo
    && forall m :: n < m < |es| ==> !Replaces(es[m], es[n].uuid)
  }

  /** Event n activated the audio session, and nothing changed that since. */
  ghost predicate AudioSince(es: seq<Event>, n: nat) {
    && n < |es| && es[n].AudioChanged? && es[n].active
    && forall m :: n < m < |es| ==> !es[m].AudioChanged? && !es[m].WasReset?
  }

  /** At the last event the receiver is the route, audio is active, some voice call is in progress, and
      no video call is. */
  ghost predicate SwitchOn(es: seq<Event>) {
    && es != [] && es[|es| - 1].receiver
    && (exists n: nat :: AudioSince(es, n))
    && (exists n: nat :: InProgress(es, n, false))
    && (forall n: nat :: !InProgress(es, n, true))
  }

  lemma InProgressOneMore(es: seq<Event>, n: nat, hasVideo: bool)
    requires es != [] && n < |es| - 1
    ensures InProgress(es, n, hasVideo)
            <==> InProgress(es[..|es| - 1], n, hasVideo) && !Replaces(es[|es| - 1], es[n].uuid)
  {
    var init := es[..|es| - 1];
    assert forall m :: 0 <= m < |init| ==> init[m] == es[m];
  }

  /** The calls known are those in progress. */
  lemma {:induction false} CallsByPosition(es: seq<Event>, u: Uuid, hasVideo: bool)
    ensures u in CallsAfter(es) && CallsAfter(es)[u] == hasVideo
            <==> exists n: nat :: InProgress(es, n, hasVideo) && es[n].uuid == u
  {
    if es != [] {
      var init, e := es[..|es| - 1], es[|es| - 1];
      CallsByPosition(init, u, hasVideo);
      forall n: nat | n < |init|
        ensures InProgress(es, n, hasVideo) <==> InProgress(init, n, hasVideo) && !Replaces(e, es[n].uuid)
      {
        InProgressOneMore(es, n, hasVideo);
      }
      CallsStep(es, u, hasVideo);
    }
  }

  lemma CallsStep(es: seq<Event>, u: Uuid, hasVideo: bool)
    requires es != []
    requires
      var init, e := es[..|es| - 1], es[|es| - 1];
      && (u in CallsAfter(init) && CallsAfter(init)[u] == hasVideo
          <==> exists n: nat :: InProgress(init, n, hasVideo) && init[n].uuid == u)
      && forall n: nat :: n < |init| ==>
           (InProgress(es, n, hasVideo) <==> InProgress(init, n, hasVideo) && !Replaces(e, es[n].uuid))
    ensures u in CallsAfter(es) && CallsAfter(es)[u] == hasVideo
            <==> exists n: nat :: InProgress(es, n, hasVideo) && es[n].uuid == u
  {
    var init, e, last := es[..|es| - 1], es[|es| - 1], |es| - 1;
    if e.Started? && e.uuid == u {
      assert e.hasVideo == hasVideo ==> InProgress(es, last, hasVideo);
    } else if Replaces(e, u) {
      assert !InProgress(es, last, hasVideo);
    } else {
      assert InProgress(es, last, hasVideo) ==> es[last].uuid != u;
      if n: nat :| InProgress(init, n, hasVideo) && init[n].uuid == u {
        assert InProgress(es, n, hasVideo);
      }
    }
  }

  lemma {:induction false} AudioByPosition(es: seq<Event>)
    ensures AudioAfter(es) <==> exists n: nat :: AudioSince(es, n)
  {
    if es != [] {
      var init, e := es[..|es| - 1], es[|es| - 1];
      AudioByPosition(init);
      if e.AudioChanged? {
        assert e.active ==> AudioSince(es, |es| - 1);
      } else if !e.WasReset? {
        assert forall n: nat :: n < |init| ==> init[n] == es[n];
        if n: nat :| AudioSince(init, n) {
          assert AudioSince(es, n);
        }
        if n: nat :| AudioSince(es, n) {
          assert AudioSince(init, n);
        }
      }
    }
  }

  /** What the switch is compared with is the condition on positions. */
  lemma WantedIsSwitchOn(es: seq<Event>)
    ensures WantedAfter(es) <==> SwitchOn(es)
  {
    AudioByPosition(es);
    ValuesByPosition(es, false);
    ValuesByPosition(es, true);
  }

  lemma ValuesByPosition(es: seq<Event>, hasVideo: bool)
    ensures hasVideo in CallsAfter(es).Values <==> exists n: nat :: InProgress(es, n, hasVideo)
  {
    if hasVideo in CallsAfter(es).Values {
      var u :| u in CallsAfter(es) && CallsAfter(es)[u] == hasVideo;
      CallsByPosition(es, u, hasVideo);
    }
    if n: nat :| InProgress(es, n, hasVideo) {
      CallsByPosition(es, es[n].uuid, hasVideo);
    }
  }

  /** Number of prefixes of es at which the condition flips. */
  ghost function Flips(es: seq<Event>): nat {
    if es == [] then 0
    else Flips(es[..|es| - 1]) + if SwitchOn(es) != SwitchOn(es[..|es| - 1]) then 1 else 0
  }

  ghost predicate Alternates(outputs: seq<bool>) {
    forall i :: 0 <= i < |outputs| ==> outputs[i] == (i % 2 == 0)
  }

  function LastOutput(outputs: seq<bool>): bool {
    if outputs == [] then false else outputs[|outputs| - 1]
  }

  ghost predicate Good(p: Prox) {
    && Alternates(p.outputs)
    && p.enabled == LastOutput(p.outputs)
    && (p.enabled <==> |p.outputs| % 2 == 1)
  }

  lemma RefreshKeepsGood(p: Prox, receiver: bool)
    requires Good(p)
    ensures
      var p' := Refresh(p, receiver);
      && Good(p') && p'.calls == p.calls && p'.audioActive == p.audioActive
      && p'.enabled == Wanted(p.calls, p.audioActive, receiver)
      && |p'.outputs| == |p.outputs| + if p'.enabled != p.enabled then 1 else 0
  {
  }

  /** The part of a step that comes before the refresh. */
  function Adjust(p: Prox, e: Event): Prox {
    match e
    case Started(uuid, hasVideo, _) => p.(calls := p.calls[uuid := hasVideo])
    case Ended(uuid, _) => p.(calls := p.calls - {uuid})
    case AudioChanged(active, _) => p.(audioActive := active)
    case RouteChanged(_) => p
    case WasReset(_) => p.(calls := map[], audioActive := false)
  }

  /** What one event makes of one call and of the audio state. */
  lemma StepCalls(p: Prox, e: Event, u: Uuid, hasVideo: bool)
    ensures
      var p' := Step(p, e);
      && (u in p'.calls && p'.calls[u] == hasVideo <==>
            || (e.Started? && e.uuid == u && e.hasVideo == hasVideo)
            || (u in p.calls && p.calls[u] == hasVideo && !Replaces(e, u)))
      && (p'.audioActive <==> if e.AudioChanged? then e.active else !e.WasReset? && p.audioActive)
  {
  }

  lemma {:induction false} RunFollowsCondition(es: seq<Event>)
    ensures Good(Run(es))
    ensures Run(es).calls == CallsAfter(es) && Run(es).audioActive == AudioAfter(es)
    ensures Run(es).enabled == WantedAfter(es)
    ensures |Run(es).outputs| == Flips(es)
  {
    if es != [] {
      var p, e := Run(es[..|es| - 1]), es[|es| - 1];
      RunFollowsCondition(es[..|es| - 1]);
      var adjusted := Adjust(p, e);
      assert adjusted.calls == CallsAfter(es) && adjusted.audioActive == AudioAfter(es);
      assert adjusted.enabled == p.enabled && adjusted.outputs == p.outputs;
      WantedIsSwitchOn(es);
      WantedIsSwitchOn(es[..|es| - 1]);
      RefreshKeepsGood(adjusted, e.receiver);
    }
  }

  /** Over every run the sensor is switched exactly once per flip of the condition, the outputs
      alternate beginning with true, and after each event the last output (false when there is
      none) is the condition on the calls, the audio session and the route at that moment. */
  lemma OutputsFollowCondition(es: seq<Event>)
    ensures Alternates(Run(es).outputs) && |Run(es).outputs| == Flips(es)
    ensures LastOutput(Run(es).outputs) == SwitchOn(es)
  {
    RunFollowsCondition(es);
    WantedIsSwitchOn(es);
  }
}
