/** The CallKit integration: which calls are registered under which UUID, which answer callbacks
    are pending, and what late asynchronous completions do to both. */
module CallRegistry {
  import P = Proximity

  type Uuid = P.Uuid

  /** Stands for one closure passed in by the application. */
  type Token = nat

  datatype Outcome = Success | IncomingUnavailable | AnswerUnavailable | UnknownCall | OtherError

  datatype Fired = Fired(token: Token, outcome: Outcome)

  /** A system request whose completion handler has not run yet. */
  datatype Completion =
    | IncomingReported(uuid: Uuid, token: Token)
    | StartRequested(uuid: Uuid, token: Token)
    | AnswerRequested(uuid: Uuid, token: Token)
    | EndRequested(uuid: Uuid, token: Token)

  datatype Action = Action(name: string, callId: string)

  datatype Registry = Registry(
    uuidByCallId: map<string, Uuid>,
    callIdByUuid: map<Uuid, string>,
    answerCompletions: map<Uuid, Token>,
    videoByUuid: map<Uuid, bool>,
    proximity: P.Prox,
    outstanding: set<Completion>,
    fired: seq<Fired>,
    actions: seq<Action>)

  const INITIAL := Registry(map[], map[], map[], map[], P.OFF, {}, [], [])

  // ---------------------------------------------------------------- what each handler does

  function Fire(r: Registry, token: Token, outcome: Outcome): Registry {
    r.(fired := r.fired + [Fired(token, outcome)])
  }

  function CompleteAnswer(r: Registry, uuid: Uuid, outcome: Outcome): Registry {
    if uuid in r.answerCompletions then
      Fire(r.(answerCompletions := r.answerCompletions - {uuid}), r.answerCompletions[uuid], outcome)
    else r
  }

  function CompleteAnswers(r: Registry, uuids: seq<Uuid>, outcome: Outcome): Registry {
    if uuids == [] then r
    else CompleteAnswer(CompleteAnswers(r, uuids[..|uuids| - 1], outcome), uuids[|uuids| - 1], outcome)
  }

  function Unregister(r: Registry, uuid: Uuid): Registry {
    if uuid in r.callIdByUuid then
      r.(callIdByUuid := r.callIdByUuid - {uuid}, uuidByCallId := r.uuidByCallId - {r.callIdByUuid[uuid]})
    else r
  }

  function Forget(r: Registry, uuid: Uuid, receiver: bool): Registry {
    var quiet := r.(proximity := P.End(r.proximity, uuid, receiver), videoByUuid := r.videoByUuid - {uuid});
    Unregister(CompleteAnswer(quiet, uuid, AnswerUnavailable), uuid)
  }

  function UuidFor(r: Registry, callId: string, newUuid: Uuid): Uuid {
    if callId in r.uuidByCallId then r.uuidByCallId[callId] else newUuid
  }

  /** Registers callId under `newUuid` unless it already has a UUID, and sets the video flag. */
  function Register(r: Registry, callId: string, hasVideo: bool, newUuid: Uuid): Registry {
    if callId in r.uuidByCallId then
      r.(videoByUuid := r.videoByUuid[r.uuidByCallId[callId] := hasVideo])
    else
      r.(uuidByCallId := r.uuidByCallId[callId := newUuid],
         callIdByUuid := r.callIdByUuid[newUuid := callId],
         videoByUuid := r.videoByUuid[newUuid := hasVideo])
  }

  function Report(r: Registry, callId: string, hasVideo: bool, newUuid: Uuid, c: Completion): Registry {
    var r' := Register(r, callId, hasVideo, newUuid);
    r'.(outstanding := r'.outstanding + {c})
  }

  function Answer(r: Registry, callId: string, token: Token): Registry {
    if callId !in r.uuidByCallId then Fire(r, token, IncomingUnavailable)
    else
      var uuid := r.uuidByCallId[callId];
      r.(answerCompletions := r.answerCompletions[uuid := token],
         outstanding := r.outstanding + {AnswerRequested(uuid, token)})
  }

  function End(r: Registry, callId: string, token: Token): Registry {
    if callId !in r.uuidByCallId then Fire(r, token, Success)
    else r.(outstanding := r.outstanding + {EndRequested(r.uuidByCallId[callId], token)})
  }

  /** The completion handler of an earlier request runs. */
  function Completed(r: Registry, c: Completion, error: Outcome, receiver: bool): Registry {
    var taken := r.(outstanding := r.outstanding - {c});
    match c
    case AnswerRequested(uuid, _) =>
      if error == Success then taken else CompleteAnswer(taken, uuid, error)
    case EndRequested(uuid, token) =>
      var alreadyEnded := error == UnknownCall;
      var kept := if error == Success || alreadyEnded then Forget(taken, uuid, receiver) else taken;
      Fire(kept, token, if alreadyEnded then Success else error)
    case _ =>
      Fire(if error != Success then Forget(taken, c.uuid, receiver) else taken, c.token, error)
  }

  function ProviderReset(r: Registry, order: seq<Uuid>, receiver: bool): Registry {
    var quiet := r.(proximity := P.Reset(r.proximity, receiver), videoByUuid := map[]);
    CompleteAnswers(quiet, order, AnswerUnavailable).(uuidByCallId := map[], callIdByUuid := map[])
  }

  function Notify(r: Registry, name: string, uuid: Uuid): Registry {
    if uuid in r.callIdByUuid then r.(actions := r.actions + [Action(name, r.callIdByUuid[uuid])]) else r
  }

  function PerformAnswer(r: Registry, uuid: Uuid, audioConfigured: bool, receiver: bool): Registry {
    if !audioConfigured then CompleteAnswer(r, uuid, AnswerUnavailable)
    else
      var hasVideo := if uuid in r.videoByUuid then r.videoByUuid[uuid] else true;
      var told := Notify(r, "answer", uuid);
      CompleteAnswer(told.(proximity := P.Start(r.proximity, uuid, hasVideo, receiver)), uuid, Success)
  }

  function PerformEnd(r: Registry, uuid: Uuid, receiver: bool): Registry {
    Forget(Notify(r, "end", uuid), uuid, receiver)
  }

  function PerformStart(r: Registry, uuid: Uuid, isVideo: bool, audioConfigured: bool, receiver: bool): Registry {
    if !audioConfigured then PerformEnd(r, uuid, receiver)
    else r.(proximity := P.Start(r.proximity, uuid, isVideo, receiver))
  }

  // ---------------------------------------------------------------- the mutable object

  class CallKitIntegration {
    var uuidByCallId: map<string, Uuid>
    var callIdByUuid: map<Uuid, string>
    var answerCompletions: map<Uuid, Token>
    var videoByUuid: map<Uuid, bool>
    const proximity: P.Controller
    var outstanding: set<Completion>
    var fired: seq<Fired>
    var actions: seq<Action>

    constructor ()
      ensures View() == INITIAL && fresh(proximity)
    {
      uuidByCallId, callIdByUuid, answerCompletions, videoByUuid := map[], map[], map[], map[];
      outstanding, fired, actions := {}, [], [];
      proximity := new P.Controller();
    }

    ghost function View(): Registry
      reads this, proximity
    {
      Registry(uuidByCallId, callIdByUuid, answerCompletions, videoByUuid, proximity.View(), outstanding, fired,
               actions)
    }

    method Remember(callId: string, newUuid: Uuid) returns (uuid: Uuid)
      modifies this
      ensures uuid == UuidFor(old(View()), callId, newUuid)
      ensures View() == if callId in old(uuidByCallId) then old(View()) else
                old(View()).(uuidByCallId := old(uuidByCallId)[callId := uuid],
                             callIdByUuid := old(callIdByUuid)[uuid := callId])
    {
      if callId in uuidByCallId {
        return uuidByCallId[callId];
      }
      uuid := newUuid;
      uuidByCallId := uuidByCallId[callId := uuid];
      callIdByUuid := callIdByUuid[uuid := callId];
    }

    method Complete(uuid: Uuid, outcome: Outcome)
      modifies this
      ensures View() == CompleteAnswer(old(View()), uuid, outcome)
    {
      if uuid in answerCompletions {
        var callback := answerCompletions[uuid];
        answerCompletions := answerCompletions - {uuid};
        fired := fired + [Fired(callback, outcome)];
      }
    }

    method ForgetUuid(uuid: Uuid, receiver: bool)
      modifies this, proximity
      ensures View() == Forget(old(View()), uuid, receiver)
    {
      proximity.EndCall(uuid, receiver);
      videoByUuid := videoByUuid - {uuid};
      Complete(uuid, AnswerUnavailable);
      if uuid in callIdByUuid {
        var callId := callIdByUuid[uuid];
        callIdByUuid := callIdByUuid - {uuid};
        uuidByCallId := uuidByCallId - {callId};
      }
    }

    /** reportIncoming and reportOutgoing differ only in the request they leave behind. */
    method ReportCall(callId: string, hasVideo: bool, incoming: bool, token: Token, newUuid: Uuid)
      modifies this
      ensures
        var uuid := UuidFor(old(View()), callId, newUuid);
        View() == Report(old(View()), callId, hasVideo, newUuid,
                         if incoming then IncomingReported(uuid, token) else StartRequested(uuid, token))
    {
      var uuid := Remember(callId, newUuid);
      videoByUuid := videoByUuid[uuid := hasVideo];
      outstanding := outstanding + {if incoming then IncomingReported(uuid, token) else StartRequested(uuid, token)};
    }

    method AnswerCall(callId: string, token: Token)
      modifies this
      ensures View() == Answer(old(View()), callId, token)
    {
      if callId !in uuidByCallId {
        fired := fired + [Fired(token, IncomingUnavailable)];
        return;
      }
      var uuid := uuidByCallId[callId];
      answerCompletions := answerCompletions[uuid := token];
      outstanding := outstanding + {AnswerRequested(uuid, token)};
    }

    method EndCall(callId: string, token: Token)
      modifies this
      ensures View() == End(old(View()), callId, token)
    {
      if callId !in uuidByCallId {
        fired := fired + [Fired(token, Success)];
        return;
      }
      outstanding := outstanding + {EndRequested(uuidByCallId[callId], token)};
    }

    method RunCompletion(c: Completion, error: Outcome, receiver: bool)
      modifies this, proximity
      ensures View() == Completed(old(View()), c, error, receiver)
    {
      outstanding := outstanding - {c};
      match c {
        case AnswerRequested(uuid, _) =>
          if error != Success {
            Complete(uuid, error);
          }
        case EndRequested(uuid, token) =>
          var alreadyEnded := error == UnknownCall;
          if error == Success || alreadyEnded {
            ForgetUuid(uuid, receiver);
          }
          fired := fired + [Fired(token, if alreadyEnded then Success else error)];
        case _ =>
          if error != Success {
            ForgetUuid(c.uuid, receiver);
          }
          fired := fired + [Fired(c.token, error)];
      }
    }

    /** `order` is the order in which the keys of the pending answers are enumerated. */
    method ProviderDidReset(order: seq<Uuid>, receiver: bool)
      modifies this, proximity
      ensures View() == ProviderReset(old(View()), order, receiver)
    {
      proximity.ResetAll(receiver);
      videoByUuid := map[];
      ghost var quiet := View();
      for i := 0 to |order|
        invariant View() == CompleteAnswers(quiet, order[..i], AnswerUnavailable)
      {
        Complete(order[i], AnswerUnavailable);
        assert order[..i + 1][..i] == order[..i];
      }
      assert order[..|order|] == order;
      uuidByCallId := map[];
      callIdByUuid := map[];
    }

    method OnPerformAnswer(uuid: Uuid, audioConfigured: bool, receiver: bool)
      modifies this, proximity
      ensures View() == PerformAnswer(old(View()), uuid, audioConfigured, receiver)
    {
      if !audioConfigured {
        Complete(uuid, AnswerUnavailable);
        return;
      }
      if uuid in callIdByUuid {
        actions := actions + [Action("answer", callIdByUuid[uuid])];
      }
      proximity.StartCall(uuid, if uuid in videoByUuid then videoByUuid[uuid] else true, receiver);
      Complete(uuid, Success);
    }

    method OnPerformEnd(uuid: Uuid, receiver: bool)
      modifies this, proximity
      ensures View() == PerformEnd(old(View()), uuid, receiver)
    {
      if uuid in callIdByUuid {
        actions := actions + [Action("end", callIdByUuid[uuid])];
      }
      ForgetUuid(uuid, receiver);
    }

    method OnPerformStart(uuid: Uuid, isVideo: bool, audioConfigured: bool, receiver: bool)
      modifies this, proximity
      ensures View() == PerformStart(old(View()), uuid, isVideo, audioConfigured, receiver)
    {
      if !audioConfigured {
        OnPerformEnd(uuid, receiver);
        return;
      }
      proximity.StartCall(uuid, isVideo, receiver);
    }
  }

  // ---------------------------------------------------------------- registration invariant

  ghost predicate Inverse(uuidByCallId: map<string, Uuid>, callIdByUuid: map<Uuid, string>) {
    && (forall c :: c in uuidByCallId ==> uuidByCallId[c] in callIdByUuid && callIdByUuid[uuidByCallId[c]] == c)
    && (forall u :: u in callIdByUuid ==> callIdByUuid[u] in uuidByCallId && uuidByCallId[callIdByUuid[u]] == u)
  }

  /** The two dictionaries are mutually inverse, exactly the registered UUIDs have a video flag, and
      only registered UUIDs have a pending answer. */
  ghost predicate Registered(r: Registry) {
    && Inverse(r.uuidByCallId, r.callIdByUuid)
    && r.videoByUuid.Keys == r.callIdByUuid.Keys
    && r.answerCompletions.Keys <= r.callIdByUuid.Keys
  }

  /** From r to r' the invariant was kept and nothing was registered or requested. */
  ghost predicate Shrunk(r: Registry, r': Registry) {
    Registered(r') && r'.callIdByUuid.Keys <= r.callIdByUuid.Keys && r'.outstanding <= r.outstanding
  }

  lemma CompleteAnswerRegistered(r: Registry, uuid: Uuid, outcome: Outcome)
    requires Registered(r)
    ensures Shrunk(r, CompleteAnswer(r, uuid, outcome))
  {
  }

  lemma RegisterRegistered(r: Registry, callId: string, hasVideo: bool, newUuid: Uuid)
    requires Registered(r) && newUuid !in r.callIdByUuid
    ensures Registered(Register(r, callId, hasVideo, newUuid))
  {
  }

  /** Forgetting removes u from all dictionaries and touches no other UUID. */
  lemma ForgetEffect(r: Registry, uuid: Uuid, receiver: bool)
    ensures
      var r' := Forget(r, uuid, receiver);
      && r'.callIdByUuid == r.callIdByUuid - {uuid}
      && r'.videoByUuid == r.videoByUuid - {uuid}
      && r'.answerCompletions == r.answerCompletions - {uuid}
      && r'.fired == CompleteAnswer(r, uuid, AnswerUnavailable).fired
      && r'.uuidByCallId == r.uuidByCallId - (if uuid in r.callIdByUuid then {r.callIdByUuid[uuid]} else {})
      && r'.proximity.calls == r.proximity.calls - {uuid}
      && r'.outstanding == r.outstanding
  {
    if uuid !in r.callIdByUuid {
      assert r.callIdByUuid - {uuid} == r.callIdByUuid;
      assert r.uuidByCallId - {} == r.uuidByCallId;
    }
    CompleteAnswerRemoves(r, uuid, AnswerUnavailable);
  }

  /** The outcomes of a request that make its handler forget the call. */
  predicate Forgets(c: Completion, error: Outcome) {
    match c
    case AnswerRequested(_, _) => false
    case EndRequested(_, _) => error == Success || error == UnknownCall
    case _ => error != Success
  }

  predicate ClearsAnswer(c: Completion, error: Outcome) {
    Forgets(c, error) || (c.AnswerRequested? && error != Success)
  }

  lemma CompletedEffect(r: Registry, c: Completion, error: Outcome, receiver: bool)
    ensures
      var r' := Completed(r, c, error, receiver);
      var gone := if Forgets(c, error) then {c.uuid} else {};
      && r'.callIdByUuid == r.callIdByUuid - gone
      && r'.videoByUuid == r.videoByUuid - gone
      && r'.proximity.calls == r.proximity.calls - gone
      && r'.answerCompletions == r.answerCompletions - (if ClearsAnswer(c, error) then {c.uuid} else {})
      && r'.uuidByCallId == r.uuidByCallId
           - (if Forgets(c, error) && c.uuid in r.callIdByUuid then {r.callIdByUuid[c.uuid]} else {})
  {
    var taken := r.(outstanding := r.outstanding - {c});
    if Forgets(c, error) {
      ForgetEffect(taken, c.uuid, receiver);
    } else {
      NothingRemoved(r.callIdByUuid);
      NothingRemoved(r.videoByUuid);
      NothingRemoved(r.proximity.calls);
      NothingRemoved(r.uuidByCallId);
      if !ClearsAnswer(c, error) {
        NothingRemoved(r.answerCompletions);
      } else {
        CompleteAnswerRemoves(taken, c.uuid, error);
      }
    }
  }

  lemma NothingRemoved<K, V>(m: map<K, V>)
    ensures m - {} == m
  {
  }

  lemma CompleteAnswerRemoves(r: Registry, uuid: Uuid, outcome: Outcome)
    ensures CompleteAnswer(r, uuid, outcome).answerCompletions == r.answerCompletions - {uuid}
  {
  }

  lemma ForgetRegistered(r: Registry, uuid: Uuid, receiver: bool)
    requires Registered(r)
    ensures Shrunk(r, Forget(r, uuid, receiver))
  {
  }

  lemma {:induction false} CompleteAnswersEffect(r: Registry, uuids: seq<Uuid>, outcome: Outcome)
    ensures
      var r' := CompleteAnswers(r, uuids, outcome);
      && r'.answerCompletions.Keys == r.answerCompletions.Keys - (set u | u in uuids)
      && (forall u :: u in r'.answerCompletions ==> r'.answerCompletions[u] == r.answerCompletions[u])
      && r' == r.(answerCompletions := r'.answerCompletions, fired := r'.fired)
  {
    if uuids != [] {
      var init, last := uuids[..|uuids| - 1], uuids[|uuids| - 1];
      CompleteAnswersEffect(r, init, outcome);
      assert uuids == init + [last];
    }
  }

  // ---------------------------------------------------------------- runs

  /** The registry together with a history of what was issued: UUIDs ever used, callbacks ever
      passed in, and answer callbacks overwritten by a second answer on the same call. */
  datatype World = World(r: Registry, used: set<Uuid>, issued: set<Token>, replaced: set<Token>)

  const START := World(INITIAL, {}, {}, {})

  datatype Event =
    | EvReport(callId: string, hasVideo: bool, incoming: bool, token: Token, newUuid: Uuid)
    | EvAnswer(callId: string, token: Token)
    | EvEnd(callId: string, token: Token)
    | EvCompletion(c: Completion, error: Outcome, receiver: bool)
    | EvReset(order: seq<Uuid>, receiver: bool)
    | EvPerformAnswer(uuid: Uuid, audioConfigured: bool, receiver: bool)
    | EvTimedOutAnswer(uuid: Uuid)
    | EvPerformEnd(uuid: Uuid, receiver: bool)
    | EvPerformStart(uuid: Uuid, isVideo: bool, audioConfigured: bool, receiver: bool)
    | EvAudio(active: bool, receiver: bool)
    | EvRoute(receiver: bool)

  /** UUIDs and callbacks are new, a completion handler runs once, and a reset enumerates the keys
      of the pending answers. Nothing else is assumed about the order of events. */
  ghost predicate Enabled(w: World, e: Event) {
    match e
    case EvReport(_, _, _, token, newUuid) => newUuid !in w.used && token !in w.issued
    case EvAnswer(_, token) => token !in w.issued
    case EvEnd(_, token) => token !in w.issued
    case EvCompletion(c, _, _) => c in w.r.outstanding
    case EvReset(order, _) => (set u | u in order) == w.r.answerCompletions.Keys
    case _ => true
  }

  function ReportStep(r: Registry, callId: string, hasVideo: bool, incoming: bool, token: Token,
                      newUuid: Uuid): Registry {
    var uuid := UuidFor(r, callId, newUuid);
    Report(r, callId, hasVideo, newUuid,
           if incoming then IncomingReported(uuid, token) else StartRequested(uuid, token))
  }

  function RegistryStep(r: Registry, e: Event): Registry {
    match e
    case EvReport(callId, hasVideo, incoming, token, newUuid) =>
      ReportStep(r, callId, hasVideo, incoming, token, newUuid)
    case EvAnswer(callId, token) => Answer(r, callId, token)
    case EvEnd(callId, token) => End(r, callId, token)
    case EvCompletion(c, error, receiver) => Completed(r, c, error, receiver)
    case EvReset(order, receiver) => ProviderReset(r, order, receiver)
    case EvPerformAnswer(uuid, audioConfigured, receiver) => PerformAnswer(r, uuid, audioConfigured, receiver)
    case EvTimedOutAnswer(uuid) => CompleteAnswer(r, uuid, AnswerUnavailable)
    case EvPerformEnd(uuid, receiver) => PerformEnd(r, uuid, receiver)
    case EvPerformStart(uuid, isVideo, audioConfigured, receiver) =>
      PerformStart(r, uuid, isVideo, audioConfigured, receiver)
    case EvAudio(active, receiver) => r.(proximity := P.SetAudioActive(r.proximity, active, receiver))
    case EvRoute(receiver) => r.(proximity := P.Refresh(r.proximity, receiver))
  }

  /** The callback an answer on this call would overwrite. */
  function Overwritten(r: Registry, callId: string): set<Token> {
    if callId in r.uuidByCallId && r.uuidByCallId[callId] in r.answerCompletions
    then {r.answerCompletions[r.uuidByCallId[callId]]} else {}
  }

  function Step(w: World, e: Event): World {
    var r' := RegistryStep(w.r, e);
    match e
    case EvReport(_, _, _, token, newUuid) => World(r', w.used + {newUuid}, w.issued + {token}, w.replaced)
    case EvAnswer(callId, token) => World(r', w.used, w.issued + {token}, w.replaced + Overwritten(w.r, callId))
    case EvEnd(_, token) => World(r', w.used, w.issued + {token}, w.replaced)
    case _ => w.(r := r')
  }

  function Run(es: seq<Event>): World {
    if es == [] then START else Step(Run(es[..|es| - 1]), es[|es| - 1])
  }

  /** Every event was enabled when it happened. */
  ghost predicate ValidRun(es: seq<Event>) {
    es == [] || (ValidRun(es[..|es| - 1]) && Enabled(Run(es[..|es| - 1]), es[|es| - 1]))
  }

  // ---------------------------------------------------------------- callback ownership

  function FiredTokens(fired: seq<Fired>): set<Token> {
    set f | f in fired :: f.token
  }

  /** Requests that own the callback they carry; an answer request does not. */
  function OwedTokens(outstanding: set<Completion>): set<Token> {
    set c | c in outstanding && !c.AnswerRequested? :: c.token
  }

  ghost predicate DistinctTokens(fired: seq<Fired>) {
    forall i, j :: 0 <= i < j < |fired| ==> fired[i].token != fired[j].token
  }

  ghost predicate Injective(m: map<Uuid, Token>) {
    forall u, v :: u in m && v in m && u != v ==> m[u] != m[v]
  }

  ghost predicate DistinctRequests(outstanding: set<Completion>) {
    forall c, d :: c in outstanding && d in outstanding && c != d ==> c.token != d.token
  }

  /** Every callback ever passed in is in exactly one place: already fired (once), pending as an
      answer, owed by an outstanding request, or overwritten. */
  ghost predicate Owned(fired: seq<Fired>, answers: map<Uuid, Token>, outstanding: set<Completion>,
                        issued: set<Token>, replaced: set<Token>)
  {
    && DistinctTokens(fired) && Injective(answers) && DistinctRequests(outstanding)
    && FiredTokens(fired) + answers.Values + OwedTokens(outstanding) + replaced == issued
    && FiredTokens(fired) !! answers.Values !! OwedTokens(outstanding) !! replaced
    && (forall c :: c in outstanding ==> c.token in issued)
  }

  ghost predicate OwnedIn(r: Registry, issued: set<Token>, replaced: set<Token>) {
    Owned(r.fired, r.answerCompletions, r.outstanding, issued, replaced)
  }

  ghost predicate Inv(w: World) {
    && Registered(w.r)
    && OwnedIn(w.r, w.issued, w.replaced)
    && w.r.callIdByUuid.Keys <= w.used
    && (forall c :: c in w.r.outstanding ==> c.uuid in w.used)
  }

  lemma FiredOneMore(fired: seq<Fired>, f: Fired)
    ensures FiredTokens(fired + [f]) == FiredTokens(fired) + {f.token}
  {
  }

  lemma ValuesAfterRemoval(m: map<Uuid, Token>, u: Uuid)
    requires u in m && Injective(m)
    ensures (m - {u}).Values == m.Values - {m[u]}
  {
    var m' := m - {u};
    assert forall v :: v in m' ==> m'[v] == m[v] && m'[v] in m.Values;
    forall t | t in m.Values - {m[u]}
      ensures t in m'.Values
    {
      var v :| v in m && m[v] == t;
      assert v in m';
    }
  }

  lemma ValuesAfterUpdate(m: map<Uuid, Token>, u: Uuid, t: Token)
    requires Injective(m)
    ensures m[u := t].Values == (if u in m then m.Values - {m[u]} else m.Values) + {t}
  {
    var rest := m - {u};
    if u in m {
      ValuesAfterRemoval(m, u);
    } else {
      assert rest == m;
    }
    var m' := m[u := t];
    assert u in m' && m'[u] == t;
    assert forall v :: v in rest ==> v in m' && m'[v] == rest[v];
    assert forall v :: v in m' && v != u ==> v in rest;
  }

  lemma FireOwned(r: Registry, token: Token, outcome: Outcome, issued: set<Token>, replaced: set<Token>)
    requires OwnedIn(r, issued, replaced) && token !in issued
    ensures OwnedIn(Fire(r, token, outcome), issued + {token}, replaced)
  {
  }

  lemma CompleteAnswerOwned(r: Registry, uuid: Uuid, outcome: Outcome, issued: set<Token>, replaced: set<Token>)
    requires OwnedIn(r, issued, replaced)
    ensures OwnedIn(CompleteAnswer(r, uuid, outcome), issued, replaced)
  {
    if uuid in r.answerCompletions {
      var t := r.answerCompletions[uuid];
      assert t in r.answerCompletions.Values;
      ValuesAfterRemoval(r.answerCompletions, uuid);
      FiredOneMore(r.fired, Fired(t, outcome));
      assert forall f :: f in r.fired ==> f.token in FiredTokens(r.fired);
    }
  }

  lemma {:induction false} CompleteAnswersOwned(r: Registry, uuids: seq<Uuid>, outcome: Outcome,
                                                issued: set<Token>, replaced: set<Token>)
    requires OwnedIn(r, issued, replaced)
    ensures OwnedIn(CompleteAnswers(r, uuids, outcome), issued, replaced)
  {
    if uuids != [] {
      CompleteAnswersOwned(r, uuids[..|uuids| - 1], outcome, issued, replaced);
      CompleteAnswerOwned(CompleteAnswers(r, uuids[..|uuids| - 1], outcome), uuids[|uuids| - 1], outcome, issued,
                          replaced);
    }
  }

  lemma ForgetOwned(r: Registry, uuid: Uuid, receiver: bool, issued: set<Token>, replaced: set<Token>)
    requires OwnedIn(r, issued, replaced)
    ensures OwnedIn(Forget(r, uuid, receiver), issued, replaced)
  {
    var quiet := r.(proximity := P.End(r.proximity, uuid, receiver), videoByUuid := r.videoByUuid - {uuid});
    CompleteAnswerOwned(quiet, uuid, AnswerUnavailable, issued, replaced);
  }

  lemma OweOwned(r: Registry, c: Completion, issued: set<Token>, replaced: set<Token>)
    requires OwnedIn(r, issued, replaced) && c.token !in issued && !c.AnswerRequested?
    ensures OwnedIn(r.(outstanding := r.outstanding + {c}), issued + {c.token}, replaced)
  {
  }

  lemma AnswerOwned(r: Registry, callId: string, token: Token, issued: set<Token>, replaced: set<Token>)
    requires OwnedIn(r, issued, replaced) && token !in issued
    ensures OwnedIn(Answer(r, callId, token), issued + {token}, replaced + Overwritten(r, callId))
  {
    if callId !in r.uuidByCallId {
      FireOwned(r, token, IncomingUnavailable, issued, replaced);
    } else {
      var uuid := r.uuidByCallId[callId];
      var c := AnswerRequested(uuid, token);
      var m := r.answerCompletions;
      ValuesAfterUpdate(m, uuid, token);
      assert forall u :: u in m ==> m[u] in m.Values;
      assert OwedTokens(r.outstanding + {c}) == OwedTokens(r.outstanding);
    }
  }

  lemma CompletedOwned(r: Registry, c: Completion, error: Outcome, receiver: bool, issued: set<Token>,
                       replaced: set<Token>)
    requires OwnedIn(r, issued, replaced) && c in r.outstanding
    ensures OwnedIn(Completed(r, c, error, receiver), issued, replaced)
  {
    var taken := r.(outstanding := r.outstanding - {c});
    if c.AnswerRequested? {
      CompleteAnswerOwned(taken, c.uuid, error, issued, replaced);
    } else {
      var left := issued - {c.token};
      ForgetOwned(taken, c.uuid, receiver, left, replaced);
      var forgets := if c.EndRequested? then error == Success || error == UnknownCall else error != Success;
      var kept := if forgets then Forget(taken, c.uuid, receiver) else taken;
      var outcome := if c.EndRequested? && error == UnknownCall then Success else error;
      FireOwned(kept, c.token, outcome, left, replaced);
      assert left + {c.token} == issued;
      assert Completed(r, c, error, receiver) == Fire(kept, c.token, outcome);
    }
  }

  lemma StepOwned(w: World, e: Event)
    requires OwnedIn(w.r, w.issued, w.replaced) && Enabled(w, e)
    ensures OwnedIn(Step(w, e).r, Step(w, e).issued, Step(w, e).replaced)
  {
    var r, i, d := w.r, w.issued, w.replaced;
    match e
    case EvReport(callId, hasVideo, incoming, token, newUuid) =>
      var uuid := UuidFor(r, callId, newUuid);
      OweOwned(Register(r, callId, hasVideo, newUuid),
               if incoming then IncomingReported(uuid, token) else StartRequested(uuid, token), i, d);
    case EvAnswer(callId, token) => AnswerOwned(r, callId, token, i, d);
    case EvEnd(callId, token) =>
      if callId in r.uuidByCallId {
        OweOwned(r, EndRequested(r.uuidByCallId[callId], token), i, d);
      } else {
        FireOwned(r, token, Success, i, d);
      }
    case EvCompletion(c, error, receiver) => CompletedOwned(r, c, error, receiver, i, d);
    case EvReset(order, receiver) =>
      CompleteAnswersOwned(r.(proximity := P.Reset(r.proximity, receiver), videoByUuid := map[]), order,
                           AnswerUnavailable, i, d);
    case EvPerformAnswer(uuid, audioConfigured, receiver) =>
      PerformAnswerOwned(r, uuid, audioConfigured, receiver, i, d);
    case EvTimedOutAnswer(uuid) => CompleteAnswerOwned(r, uuid, AnswerUnavailable, i, d);
    case EvPerformEnd(uuid, receiver) => ForgetOwned(Notify(r, "end", uuid), uuid, receiver, i, d);
    case EvPerformStart(uuid, _, audioConfigured, receiver) =>
      if !audioConfigured {
        ForgetOwned(Notify(r, "end", uuid), uuid, receiver, i, d);
      }
    case EvAudio(_, _) =>
    case EvRoute(_) =>
  }

  lemma PerformAnswerOwned(r: Registry, uuid: Uuid, audioConfigured: bool, receiver: bool, issued: set<Token>,
                           replaced: set<Token>)
    requires OwnedIn(r, issued, replaced)
    ensures OwnedIn(PerformAnswer(r, uuid, audioConfigured, receiver), issued, replaced)
  {
    if audioConfigured {
      var hasVideo := if uuid in r.videoByUuid then r.videoByUuid[uuid] else true;
      CompleteAnswerOwned(Notify(r, "answer", uuid).(proximity := P.Start(r.proximity, uuid, hasVideo, receiver)),
                          uuid, Success, issued, replaced);
    } else {
      CompleteAnswerOwned(r, uuid, AnswerUnavailable, issued, replaced);
    }
  }

  // ---------------------------------------------------------------- the invariant over runs

  lemma CompletedRegistered(r: Registry, c: Completion, error: Outcome, receiver: bool)
    requires Registered(r)
    ensures Shrunk(r, Completed(r, c, error, receiver))
  {
    var taken := r.(outstanding := r.outstanding - {c});
    assert Shrunk(r, taken);
    if Forgets(c, error) {
      ForgetRegistered(taken, c.uuid, receiver);
    } else {
      CompleteAnswerRegistered(taken, c.uuid, error);
    }
  }

  lemma ResetRegistered(r: Registry, order: seq<Uuid>, receiver: bool)
    requires Registered(r) && (set u | u in order) == r.answerCompletions.Keys
    ensures Shrunk(r, ProviderReset(r, order, receiver))
    ensures ProviderReset(r, order, receiver).answerCompletions == map[]
  {
    CompleteAnswersEffect(r.(proximity := P.Reset(r.proximity, receiver), videoByUuid := map[]), order,
                          AnswerUnavailable);
  }

  lemma PerformAnswerRegistered(r: Registry, uuid: Uuid, audioConfigured: bool, receiver: bool)
    requires Registered(r)
    ensures Shrunk(r, PerformAnswer(r, uuid, audioConfigured, receiver))
  {
  }

  lemma PerformEndRegistered(r: Registry, uuid: Uuid, receiver: bool)
    requires Registered(r)
    ensures Shrunk(r, PerformEnd(r, uuid, receiver))
  {
    var told := Notify(r, "end", uuid);
    assert Shrunk(r, told);
    ForgetRegistered(told, uuid, receiver);
  }

  lemma StepRegistered(w: World, e: Event)
    requires Inv(w) && Enabled(w, e)
    ensures Registered(Step(w, e).r)
    ensures Step(w, e).r.callIdByUuid.Keys <= Step(w, e).used
    ensures forall c :: c in Step(w, e).r.outstanding ==> c.uuid in Step(w, e).used
  {
    var r := w.r;
    match e
    case EvReport(callId, hasVideo, incoming, token, newUuid) => RegisterRegistered(r, callId, hasVideo, newUuid);
    case EvAnswer(callId, token) => AnswerRegistered(w, callId, token);
    case EvEnd(callId, token) => assert callId in r.uuidByCallId ==> r.uuidByCallId[callId] in r.callIdByUuid.Keys;
    case EvCompletion(c, error, receiver) => CompletedRegistered(r, c, error, receiver);
    case EvReset(order, receiver) => ResetRegistered(r, order, receiver);
    case EvPerformAnswer(uuid, audioConfigured, receiver) =>
      PerformAnswerRegistered(r, uuid, audioConfigured, receiver);
    case EvTimedOutAnswer(uuid) => CompleteAnswerRegistered(r, uuid, AnswerUnavailable);
    case EvPerformEnd(uuid, receiver) => PerformEndRegistered(r, uuid, receiver);
    case EvPerformStart(uuid, _, audioConfigured, receiver) =>
      if !audioConfigured {
        PerformEndRegistered(r, uuid, receiver);
      }
    case EvAudio(_, _) =>
    case EvRoute(_) =>
  }

  lemma AnswerRegistered(w: World, callId: string, token: Token)
    requires Inv(w)
    ensures Registered(Answer(w.r, callId, token))
    ensures Answer(w.r, callId, token).callIdByUuid == w.r.callIdByUuid
    ensures forall c :: c in Answer(w.r, callId, token).outstanding ==> c.uuid in w.used
  {
  }

  /** In every reachable state, whatever order the completions arrived in, the dictionaries are
      mutually inverse, pending answers belong to registered calls, and no callback is lost. */
  lemma {:induction false} RunInv(es: seq<Event>)
    requires ValidRun(es)
    ensures Inv(Run(es))
  {
    if es != [] {
      RunInv(es[..|es| - 1]);
      StepRegistered(Run(es[..|es| - 1]), es[|es| - 1]);
      StepOwned(Run(es[..|es| - 1]), es[|es| - 1]);
    }
  }

  // ---------------------------------------------------------------- consequences

  /** Over a whole run no callback is invoked twice. */
  lemma FiresAtMostOnce(es: seq<Event>, i: nat, j: nat)
    requires ValidRun(es) && i < j < |Run(es).r.fired|
    ensures Run(es).r.fired[i].token != Run(es).r.fired[j].token
  {
    RunInv(es);
  }

  /** At the end of any run, every callback that was ever passed in has fired, or waits under a
      registered call, or is owed by an outstanding request, or was overwritten: exactly one of these. */
  lemma CallbackAccounted(es: seq<Event>, t: Token)
    requires ValidRun(es) && t in Run(es).issued
    ensures
      var w := Run(es);
      var gone, waiting := t in FiredTokens(w.r.fired), t in w.r.answerCompletions.Values;
      var owed, overwritten := t in OwedTokens(w.r.outstanding), t in w.replaced;
      && (gone || waiting || owed || overwritten)
      && !(gone && waiting) && !(gone && owed) && !(gone && overwritten)
      && !(waiting && owed) && !(waiting && overwritten) && !(owed && overwritten)
      && (waiting ==> exists u :: u in w.r.callIdByUuid && u in w.r.answerCompletions && w.r.answerCompletions[u] == t)
  {
    RunInv(es);
    var r := Run(es).r;
    if t in r.answerCompletions.Values {
      var u :| u in r.answerCompletions && r.answerCompletions[u] == t;
      assert u in r.answerCompletions.Keys;
    }
  }

  /** An answer callback registered for u is still waiting under u, or has fired, or was overwritten. */
  ghost predicate Fate(w: World, t: Token, u: Uuid) {
    t in FiredTokens(w.r.fired) || t in w.replaced || (u in w.r.answerCompletions && w.r.answerCompletions[u] == t)
  }

  /** From r to r' no fired callback is taken back, and the one waiting under u still waits or fired. */
  ghost predicate KeepsFate(r: Registry, r': Registry, u: Uuid) {
    && FiredTokens(r.fired) <= FiredTokens(r'.fired)
    && (u in r.answerCompletions ==>
          (u in r'.answerCompletions && r'.answerCompletions[u] == r.answerCompletions[u])
          || r.answerCompletions[u] in FiredTokens(r'.fired))
  }

  lemma FireFate(r: Registry, token: Token, outcome: Outcome, u: Uuid)
    ensures KeepsFate(r, Fire(r, token, outcome), u)
  {
  }

  lemma CompleteAnswerFate(r: Registry, uuid: Uuid, outcome: Outcome, u: Uuid)
    ensures KeepsFate(r, CompleteAnswer(r, uuid, outcome), u)
  {
  }

  lemma ForgetFate(r: Registry, uuid: Uuid, receiver: bool, u: Uuid)
    ensures KeepsFate(r, Forget(r, uuid, receiver), u)
  {
  }

  lemma {:induction false} CompleteAnswersFate(r: Registry, uuids: seq<Uuid>, outcome: Outcome, u: Uuid)
    ensures KeepsFate(r, CompleteAnswers(r, uuids, outcome), u)
  {
    if uuids != [] {
      CompleteAnswersFate(r, uuids[..|uuids| - 1], outcome, u);
      CompleteAnswerFate(CompleteAnswers(r, uuids[..|uuids| - 1], outcome), uuids[|uuids| - 1], outcome, u);
    }
  }

  lemma CompletedFate(r: Registry, c: Completion, error: Outcome, receiver: bool, u: Uuid)
    ensures KeepsFate(r, Completed(r, c, error, receiver), u)
  {
    var taken := r.(outstanding := r.outstanding - {c});
    if c.AnswerRequested? {
      CompleteAnswerFate(taken, c.uuid, error, u);
    } else {
      ForgetFate(taken, c.uuid, receiver, u);
      var kept := if Forgets(c, error) then Forget(taken, c.uuid, receiver) else taken;
      FireFate(kept, c.token, error, u);
      FireFate(kept, c.token, Success, u);
    }
  }

  lemma PerformAnswerFate(r: Registry, uuid: Uuid, audioConfigured: bool, receiver: bool, u: Uuid)
    ensures KeepsFate(r, PerformAnswer(r, uuid, audioConfigured, receiver), u)
  {
  }

  lemma PerformEndFate(r: Registry, uuid: Uuid, receiver: bool, u: Uuid)
    ensures KeepsFate(r, PerformEnd(r, uuid, receiver), u)
  {
  }

  lemma AnswerFate(w: World, callId: string, token: Token, t: Token, u: Uuid)
    requires Fate(w, t, u)
    ensures Fate(Step(w, EvAnswer(callId, token)), t, u)
  {
  }

  lemma StepFate(w: World, e: Event, t: Token, u: Uuid)
    requires Enabled(w, e) && Fate(w, t, u)
    ensures Fate(Step(w, e), t, u)
  {
    var r := w.r;
    match e
    case EvReport(_, _, _, _, _) => assert KeepsFate(r, RegistryStep(r, e), u);
    case EvAnswer(callId, token) => AnswerFate(w, callId, token, t, u);
    case EvEnd(_, token) => FireFate(r, token, Success, u);
    case EvCompletion(c, error, receiver) => CompletedFate(r, c, error, receiver, u);
    case EvReset(order, receiver) =>
      CompleteAnswersFate(r.(proximity := P.Reset(r.proximity, receiver), videoByUuid := map[]), order,
                          AnswerUnavailable, u);
    case EvPerformAnswer(uuid, audioConfigured, receiver) => PerformAnswerFate(r, uuid, audioConfigured, receiver, u);
    case EvTimedOutAnswer(uuid) => CompleteAnswerFate(r, uuid, AnswerUnavailable, u);
    case EvPerformEnd(uuid, receiver) => PerformEndFate(r, uuid, receiver, u);
    case EvPerformStart(uuid, _, audioConfigured, receiver) =>
      if !audioConfigured {
        PerformEndFate(r, uuid, receiver, u);
      }
    case EvAudio(_, _) =>
    case EvRoute(_) =>
  }

  /** Event n of the run is an answer on a call registered under u. */
  ghost predicate AnsweredAt(es: seq<Event>, n: nat, u: Uuid) {
    && n < |es| && es[n].EvAnswer?
    && es[n].callId in Run(es[..n]).r.uuidByCallId && Run(es[..n]).r.uuidByCallId[es[n].callId] == u
  }

  lemma {:induction false} RunFate(es: seq<Event>, n: nat, u: Uuid)
    requires ValidRun(es) && AnsweredAt(es, n, u)
    ensures Fate(Run(es), es[n].token, u)
  {
    var init := es[..|es| - 1];
    if n == |es| - 1 {
      assert init == es[..n];
    } else {
      assert init[..n] == es[..n];
      RunFate(init, n, u);
      StepFate(Run(init), es[|es| - 1], es[n].token, u);
    }
  }

  /** Whatever happens after an answer on a registered call: once its UUID is no longer registered,
      the callback has fired, unless a second answer on the call overwrote it. */
  lemma AnswerSettledWhenForgotten(es: seq<Event>, n: nat, u: Uuid)
    requires ValidRun(es) && AnsweredAt(es, n, u)
    requires u !in Run(es).r.callIdByUuid
    ensures es[n].token in FiredTokens(Run(es).r.fired) + Run(es).replaced
  {
    RunFate(es, n, u);
    RunInv(es);
    assert u !in Run(es).r.answerCompletions.Keys;
  }

  /** Events after which no answer may be waiting for u: its answer was performed, failed to be
      performed, timed out or was rejected, the call ended, or the provider was reset. */
  predicate Settles(e: Event, u: Uuid) {
    match e
    case EvPerformAnswer(uuid, _, _) => uuid == u
    case EvTimedOutAnswer(uuid) => uuid == u
    case EvPerformEnd(uuid, _) => uuid == u
    case EvPerformStart(uuid, _, audioConfigured, _) => uuid == u && !audioConfigured
    case EvReset(_, _) => true
    case EvCompletion(c, error, _) =>
      c.uuid == u && ClearsAnswer(c, error)
    case _ => false
  }

  /** ... and then the callback has fired or was overwritten, also when the call stays registered. */
  lemma AnswerSettledByEvent(es: seq<Event>, n: nat, u: Uuid)
    requires ValidRun(es) && AnsweredAt(es, n, u) && n < |es| - 1 && Settles(es[|es| - 1], u)
    ensures es[n].token in FiredTokens(Run(es).r.fired) + Run(es).replaced
  {
    RunFate(es, n, u);
    RunInv(es[..|es| - 1]);
    SettledNotWaiting(Run(es[..|es| - 1]), es[|es| - 1], u);
  }

  lemma SettledNotWaiting(w: World, e: Event, u: Uuid)
    requires Inv(w) && Enabled(w, e) && Settles(e, u)
    ensures u !in Step(w, e).r.answerCompletions
  {
    match e
    case EvReset(order, receiver) => ResetRegistered(w.r, order, receiver);
    case EvCompletion(c, error, receiver) => CompletedEffect(w.r, c, error, receiver);
    case EvPerformEnd(uuid, receiver) => ForgetEffect(Notify(w.r, "end", uuid), uuid, receiver);
    case EvPerformStart(uuid, _, _, receiver) => ForgetEffect(Notify(w.r, "end", uuid), uuid, receiver);
    case _ =>
  }

  // ---------------------------------------------------------------- what an answer callback is told

  predicate ToldSuccess(r: Registry, t: Token) {
    Fired(t, Success) in r.fired
  }

  lemma CompleteAnswerTells(r: Registry, uuid: Uuid, outcome: Outcome, t: Token)
    ensures ToldSuccess(CompleteAnswer(r, uuid, outcome), t) <==>
              ToldSuccess(r, t) || (outcome == Success && uuid in r.answerCompletions && r.answerCompletions[uuid] == t)
  {
  }

  lemma {:induction false} CompleteAnswersTell(r: Registry, uuids: seq<Uuid>, t: Token)
    ensures ToldSuccess(CompleteAnswers(r, uuids, AnswerUnavailable), t) <==> ToldSuccess(r, t)
  {
    if uuids != [] {
      CompleteAnswersTell(r, uuids[..|uuids| - 1], t);
      CompleteAnswerTells(CompleteAnswers(r, uuids[..|uuids| - 1], AnswerUnavailable), uuids[|uuids| - 1],
                          AnswerUnavailable, t);
    }
  }

  lemma CompletedTells(r: Registry, c: Completion, error: Outcome, receiver: bool, t: Token)
    requires c.AnswerRequested? || c.token != t
    ensures ToldSuccess(Completed(r, c, error, receiver), t) <==> ToldSuccess(r, t)
  {
    var taken := r.(outstanding := r.outstanding - {c});
    if c.AnswerRequested? {
      CompleteAnswerTells(taken, c.uuid, error, t);
    } else {
      ForgetEffect(taken, c.uuid, receiver);
      CompleteAnswerTells(taken, c.uuid, AnswerUnavailable, t);
      var kept := if Forgets(c, error) then Forget(taken, c.uuid, receiver) else taken;
      assert ToldSuccess(kept, t) <==> ToldSuccess(r, t);
    }
  }

  lemma PerformAnswerTells(r: Registry, uuid: Uuid, audioConfigured: bool, receiver: bool, t: Token)
    ensures ToldSuccess(PerformAnswer(r, uuid, audioConfigured, receiver), t) <==>
              ToldSuccess(r, t) || (audioConfigured && uuid in r.answerCompletions && r.answerCompletions[uuid] == t)
  {
  }

  predicate PerformsAnswer(e: Event, u: Uuid) {
    e.EvPerformAnswer? && e.uuid == u && e.audioConfigured
  }

  lemma PerformEndTells(r: Registry, uuid: Uuid, receiver: bool, t: Token)
    ensures ToldSuccess(PerformEnd(r, uuid, receiver), t) <==> ToldSuccess(r, t)
  {
  }

  /** The callback waiting under u is told of success by exactly one kind of event: the system
      performing the answer after the audio session was configured. Acceptance of the request is not
      enough. */
  lemma SuccessOnlyWhenPerformed(w: World, e: Event, u: Uuid, t: Token)
    requires Inv(w) && Enabled(w, e) && u in w.r.answerCompletions && w.r.answerCompletions[u] == t
    ensures ToldSuccess(Step(w, e).r, t) <==> PerformsAnswer(e, u)
  {
    var r := w.r;
    assert t in r.answerCompletions.Values && t in w.issued;
    assert forall f :: f in r.fired ==> f.token in FiredTokens(r.fired);
    match e
    case EvReport(_, _, _, _, _) =>
    case EvAnswer(_, token) =>
    case EvEnd(_, token) =>
    case EvCompletion(c, error, receiver) =>
      assert !c.AnswerRequested? ==> c.token in OwedTokens(r.outstanding);
      CompletedTells(r, c, error, receiver, t);
    case EvReset(order, receiver) =>
      CompleteAnswersTell(r.(proximity := P.Reset(r.proximity, receiver), videoByUuid := map[]), order, t);
    case EvPerformAnswer(uuid, audioConfigured, receiver) => PerformAnswerTells(r, uuid, audioConfigured, receiver, t);
    case EvTimedOutAnswer(uuid) => CompleteAnswerTells(r, uuid, AnswerUnavailable, t);
    case EvPerformEnd(uuid, receiver) => PerformEndTells(r, uuid, receiver, t);
    case EvPerformStart(uuid, _, _, receiver) => PerformEndTells(r, uuid, receiver, t);
    case EvAudio(_, _) =>
    case EvRoute(_) =>
  }

  lemma FirstTold(es: seq<Event>, n: nat, u: Uuid)
    requires ValidRun(es) && AnsweredAt(es, n, u) && n < |es| - 1
    requires ToldSuccess(Run(es).r, es[n].token) && !ToldSuccess(Run(es[..|es| - 1]).r, es[n].token)
    ensures PerformsAnswer(es[|es| - 1], u)
  {
    var init := es[..|es| - 1];
    RunInv(es);
    RunInv(init);
    assert init[..n] == es[..n];
    RunFate(init, n, u);
    LaterSuccess(Run(init), es[|es| - 1], es[n].token, u);
  }

  lemma NotToldYet(es: seq<Event>, n: nat, u: Uuid)
    requires ValidRun(es) && AnsweredAt(es, n, u) && n == |es| - 1
    ensures !ToldSuccess(Run(es).r, es[n].token)
  {
    RunInv(es[..n]);
  }

  /** Over whole runs: an answer callback that was told of success had its call's answer performed
      with configured audio after it was registered. */
  lemma {:induction false} SuccessWasPerformed(es: seq<Event>, n: nat, u: Uuid) returns (m: nat)
    requires ValidRun(es) && AnsweredAt(es, n, u) && ToldSuccess(Run(es).r, es[n].token)
    ensures n < m < |es| && PerformsAnswer(es[m], u)
  {
    var init := es[..|es| - 1];
    m := |es| - 1;
    if n == |init| {
      NotToldYet(es, n, u);
    } else if ToldSuccess(Run(init).r, es[n].token) {
      assert init[..n] == es[..n];
      m := SuccessWasPerformed(init, n, u);
    } else {
      FirstTold(es, n, u);
    }
  }

  lemma LaterSuccess(w: World, e: Event, t: Token, u: Uuid)
    requires Inv(w) && Enabled(w, e) && Inv(Step(w, e)) && Fate(w, t, u)
    requires ToldSuccess(Step(w, e).r, t) && !ToldSuccess(w.r, t)
    ensures PerformsAnswer(e, u)
  {
    StillWaiting(w, e, t, u);
    SuccessOnlyWhenPerformed(w, e, u, t);
  }

  /** A callback told of success only now was waiting under its call until now. */
  lemma StillWaiting(w: World, e: Event, t: Token, u: Uuid)
    requires Inv(w) && Enabled(w, e) && Inv(Step(w, e)) && Fate(w, t, u)
    requires ToldSuccess(Step(w, e).r, t) && !ToldSuccess(w.r, t)
    ensures u in w.r.answerCompletions && w.r.answerCompletions[u] == t
  {
    FiredPrefix(w, e);
    assert t in FiredTokens(Step(w, e).r.fired);
  }

  /** The registration of callId under u, with its video flag and pending answer, is the same in both. */
  ghost predicate SameRegistration(r: Registry, r': Registry, callId: string, u: Uuid) {
    && callId in r'.uuidByCallId && r'.uuidByCallId[callId] == u
    && u in r'.callIdByUuid && r'.callIdByUuid[u] == callId
    && u in r.videoByUuid && u in r'.videoByUuid && r'.videoByUuid[u] == r.videoByUuid[u]
    && (u in r'.answerCompletions <==> u in r.answerCompletions)
    && (u in r.answerCompletions ==> r'.answerCompletions[u] == r.answerCompletions[u])
  }

  lemma CompletedKeepsOther(r: Registry, c: Completion, error: Outcome, receiver: bool, callId: string)
    requires Registered(r) && callId in r.uuidByCallId && r.uuidByCallId[callId] != c.uuid
    ensures SameRegistration(r, Completed(r, c, error, receiver), callId, r.uuidByCallId[callId])
  {
    var u := r.uuidByCallId[callId];
    assert u in r.callIdByUuid.Keys && u in r.videoByUuid.Keys;
    CompletedEffect(r, c, error, receiver);
    assert c.uuid in r.callIdByUuid ==> r.callIdByUuid[c.uuid] != callId;
  }

  /** A late completion touches no registration but that of its own UUID; in particular a newer
      registration of the same call id, which has another UUID, keeps its entries. */
  lemma LateCompletionIsHarmless(w: World, c: Completion, error: Outcome, receiver: bool, callId: string)
    requires Inv(w) && c in w.r.outstanding
    requires callId in w.r.uuidByCallId && w.r.uuidByCallId[callId] != c.uuid
    ensures SameRegistration(w.r, Step(w, EvCompletion(c, error, receiver)).r, callId, w.r.uuidByCallId[callId])
  {
    CompletedKeepsOther(w.r, c, error, receiver, callId);
  }

  /** For a UUID that is no longer registered a completion changes none of the four dictionaries. */
  lemma StaleCompletionChangesNothing(w: World, c: Completion, error: Outcome, receiver: bool)
    requires Inv(w) && c in w.r.outstanding && c.uuid !in w.r.callIdByUuid
    ensures
      var r, r' := w.r, Step(w, EvCompletion(c, error, receiver)).r;
      && r'.uuidByCallId == r.uuidByCallId && r'.callIdByUuid == r.callIdByUuid
      && r'.videoByUuid == r.videoByUuid && r'.answerCompletions == r.answerCompletions
  {
    assert c.uuid !in w.r.videoByUuid.Keys && c.uuid !in w.r.answerCompletions.Keys;
    CompletedEffect(w.r, c, error, receiver);
  }

  // ---------------------------------------------------------------- what every event does

  /** The system makes the registry forget the UUID: a failed report or start, an end that succeeded or
      found no call, a performed end, or a performed start without audio. */
  predicate IsForgottenBy(e: Event, u: Uuid) {
    !e.EvReset? && EndsCall(e, u)
  }

  /** Events that tell the application about a registered call: an answer performed with audio, and an end
      performed or a start performed without audio. */
  lemma ActionsExactly(r: Registry, e: Event)
    ensures
      var r' := RegistryStep(r, e);
      if e.EvPerformAnswer? && e.audioConfigured && e.uuid in r.callIdByUuid
      then r'.actions == r.actions + [Action("answer", r.callIdByUuid[e.uuid])]
      else if (e.EvPerformEnd? || (e.EvPerformStart? && !e.audioConfigured)) && e.uuid in r.callIdByUuid
      then r'.actions == r.actions + [Action("end", r.callIdByUuid[e.uuid])]
      else r'.actions == r.actions
  {
    match e
    case EvCompletion(c, error, receiver) => CompletedActions(r, c, error, receiver);
    case EvReset(order, receiver) =>
      CompleteAnswersEffect(r.(proximity := P.Reset(r.proximity, receiver), videoByUuid := map[]), order,
                            AnswerUnavailable);
    case EvPerformEnd(uuid, receiver) => ForgetActions(Notify(r, "end", uuid), uuid, receiver);
    case EvPerformStart(uuid, _, _, receiver) => ForgetActions(Notify(r, "end", uuid), uuid, receiver);
    case _ =>
  }

  lemma ForgetActions(r: Registry, uuid: Uuid, receiver: bool)
    ensures Forget(r, uuid, receiver).actions == r.actions
  {
  }

  lemma CompletedActions(r: Registry, c: Completion, error: Outcome, receiver: bool)
    ensures Completed(r, c, error, receiver).actions == r.actions
  {
    ForgetActions(r.(outstanding := r.outstanding - {c}), c.uuid, receiver);
  }

  /** The pending answer under a UUID, told an outcome. */
  function Told(r: Registry, u: Uuid, outcome: Outcome): seq<Fired> {
    if u in r.answerCompletions then [Fired(r.answerCompletions[u], outcome)] else []
  }

  /** Which callbacks an event invokes, in order and with which outcome; a reset has its own law. */
  function FiredBy(r: Registry, e: Event): seq<Fired> {
    match e
    case EvAnswer(callId, token) => if callId in r.uuidByCallId then [] else [Fired(token, IncomingUnavailable)]
    case EvEnd(callId, token) => if callId in r.uuidByCallId then [] else [Fired(token, Success)]
    case EvCompletion(AnswerRequested(u, _), error, _) => if error == Success then [] else Told(r, u, error)
    case EvCompletion(EndRequested(u, token), error, _) =>
      if error == Success || error == UnknownCall then Told(r, u, AnswerUnavailable) + [Fired(token, Success)]
      else [Fired(token, error)]
    case EvCompletion(c, error, _) =>
      (if error == Success then [] else Told(r, c.uuid, AnswerUnavailable)) + [Fired(c.token, error)]
    case EvPerformAnswer(u, audioConfigured, _) => Told(r, u, if audioConfigured then Success else AnswerUnavailable)
    case EvTimedOutAnswer(u) => Told(r, u, AnswerUnavailable)
    case EvPerformEnd(u, _) => Told(r, u, AnswerUnavailable)
    case EvPerformStart(u, _, audioConfigured, _) => if audioConfigured then [] else Told(r, u, AnswerUnavailable)
    case _ => []
  }

  lemma ForgetFires(r: Registry, uuid: Uuid, receiver: bool)
    ensures Forget(r, uuid, receiver).fired == r.fired + Told(r, uuid, AnswerUnavailable)
  {
  }

  lemma CompletedFires(r: Registry, c: Completion, error: Outcome, receiver: bool)
    ensures Completed(r, c, error, receiver).fired == r.fired + FiredBy(r, EvCompletion(c, error, receiver))
  {
    ForgetFires(r.(outstanding := r.outstanding - {c}), c.uuid, receiver);
  }

  lemma FiredExactly(r: Registry, e: Event)
    requires !e.EvReset?
    ensures RegistryStep(r, e).fired == r.fired + FiredBy(r, e)
  {
    match e
    case EvCompletion(c, error, receiver) => CompletedFires(r, c, error, receiver);
    case EvPerformEnd(uuid, receiver) => ForgetFires(Notify(r, "end", uuid), uuid, receiver);
    case EvPerformStart(uuid, _, _, receiver) => ForgetFires(Notify(r, "end", uuid), uuid, receiver);
    case _ =>
  }

  /** A reset tells every pending answer, and no other callback, that the call could not be answered. */
  lemma {:induction false} ResetFires(r: Registry, order: seq<Uuid>, f: Fired)
    ensures f in CompleteAnswers(r, order, AnswerUnavailable).fired <==>
              f in r.fired || exists u: Uuid :: u in order && f in Told(r, u, AnswerUnavailable)
  {
    if order != [] {
      var init, last := order[..|order| - 1], order[|order| - 1];
      ResetFires(r, init, f);
      CompleteAnswersEffect(r, init, AnswerUnavailable);
      assert order == init + [last];
      var r' := CompleteAnswers(r, init, AnswerUnavailable);
      assert CompleteAnswers(r, order, AnswerUnavailable).fired == r'.fired + Told(r', last, AnswerUnavailable);
      assert last !in init ==> Told(r', last, AnswerUnavailable) == Told(r, last, AnswerUnavailable);
      assert last in init ==> Told(r', last, AnswerUnavailable) == [];
    }
  }

  lemma ResetTellsAll(r: Registry, order: seq<Uuid>, receiver: bool, f: Fired)
    requires (set u | u in order) == r.answerCompletions.Keys
    ensures f in ProviderReset(r, order, receiver).fired <==>
              f in r.fired || (f.token in r.answerCompletions.Values && f.outcome == AnswerUnavailable)
  {
    ResetFires(r.(proximity := P.Reset(r.proximity, receiver), videoByUuid := map[]), order, f);
    if f.token in r.answerCompletions.Values {
      var u :| u in r.answerCompletions && r.answerCompletions[u] == f.token;
      assert u in (set v | v in order);
    }
    forall u: Uuid | u in order
      ensures u in r.answerCompletions
    {
      assert u in (set v | v in order);
    }
  }

  /** The call is registered under the UUID after the event. */
  predicate RegisteredAfter(r: Registry, e: Event, callId: string, u: Uuid) {
    var same := callId in r.uuidByCallId && r.uuidByCallId[callId] == u;
    match e
    case EvReport(c, _, _, _, newUuid) => same || (c == callId && callId !in r.uuidByCallId && u == newUuid)
    case EvReset(_, _) => false
    case _ => same && !IsForgottenBy(e, u)
  }

  predicate IsRegistered(r: Registry, callId: string, u: Uuid) {
    callId in r.uuidByCallId && r.uuidByCallId[callId] == u
  }

  lemma ForgottenRegistrations(r: Registry, r': Registry, v: Uuid, callId: string, u: Uuid)
    requires Registered(r)
    requires r'.uuidByCallId == r.uuidByCallId - (if v in r.callIdByUuid then {r.callIdByUuid[v]} else {})
    ensures IsRegistered(r', callId, u) <==> IsRegistered(r, callId, u) && u != v
  {
  }

  lemma CompletionRegistrations(r: Registry, c: Completion, error: Outcome, receiver: bool, callId: string, u: Uuid)
    requires Registered(r)
    ensures IsRegistered(Completed(r, c, error, receiver), callId, u)
            <==> RegisteredAfter(r, EvCompletion(c, error, receiver), callId, u)
  {
    CompletedUuids(r, c, error, receiver);
    if Forgets(c, error) {
      ForgottenRegistrations(r, Completed(r, c, error, receiver), c.uuid, callId, u);
    }
  }

  lemma CompletedUuids(r: Registry, c: Completion, error: Outcome, receiver: bool)
    ensures
      var r' := Completed(r, c, error, receiver);
      if Forgets(c, error)
      then r'.uuidByCallId == r.uuidByCallId - (if c.uuid in r.callIdByUuid then {r.callIdByUuid[c.uuid]} else {})
      else r'.uuidByCallId == r.uuidByCallId
  {
    CompletedEffect(r, c, error, receiver);
  }

  lemma EndRegistrations(r: Registry, v: Uuid, receiver: bool, callId: string, u: Uuid)
    requires Registered(r)
    ensures IsRegistered(PerformEnd(r, v, receiver), callId, u) <==> IsRegistered(r, callId, u) && u != v
  {
    ForgetEffect(Notify(r, "end", v), v, receiver);
    ForgottenRegistrations(r, PerformEnd(r, v, receiver), v, callId, u);
  }

  /** Registrations: made by reports of unknown calls, lost exactly by the events that forget. */
  lemma RegistrationsExactly(w: World, e: Event, callId: string, u: Uuid)
    requires Inv(w) && Enabled(w, e)
    ensures IsRegistered(RegistryStep(w.r, e), callId, u) <==> RegisteredAfter(w.r, e, callId, u)
  {
    var r := w.r;
    match e
    case EvCompletion(c, error, receiver) => CompletionRegistrations(r, c, error, receiver, callId, u);
    case EvPerformEnd(v, receiver) => EndRegistrations(r, v, receiver, callId, u);
    case EvPerformStart(v, _, _, receiver) => EndRegistrations(r, v, receiver, callId, u);
    case _ =>
  }

  /** The callback waits under the UUID after the event. */
  predicate WaitingAfter(r: Registry, e: Event, u: Uuid, t: Token) {
    var same := u in r.answerCompletions && r.answerCompletions[u] == t;
    match e
    case EvAnswer(callId, token) =>
      if callId in r.uuidByCallId && r.uuidByCallId[callId] == u then t == token else same
    case EvCompletion(AnswerRequested(v, _), error, _) => same && !(u == v && error != Success)
    case EvPerformAnswer(v, _, _) => same && u != v
    case EvTimedOutAnswer(v) => same && u != v
    case _ => same && !EndsCall(e, u)
  }

  predicate Waits(r: Registry, u: Uuid, t: Token) {
    u in r.answerCompletions && r.answerCompletions[u] == t
  }

  lemma CompletionAnswers(r: Registry, c: Completion, error: Outcome, receiver: bool, u: Uuid, t: Token)
    ensures Waits(Completed(r, c, error, receiver), u, t) <==> WaitingAfter(r, EvCompletion(c, error, receiver), u, t)
  {
    CompletedEffect(r, c, error, receiver);
  }

  lemma PerformedAnswers(r: Registry, uuid: Uuid, audioConfigured: bool, receiver: bool, u: Uuid, t: Token)
    ensures Waits(PerformAnswer(r, uuid, audioConfigured, receiver), u, t) <==> Waits(r, u, t) && u != uuid
  {
  }

  lemma ForgottenAnswers(r: Registry, uuid: Uuid, receiver: bool, u: Uuid, t: Token)
    ensures Waits(PerformEnd(r, uuid, receiver), u, t) <==> Waits(r, u, t) && u != uuid
  {
    ForgetEffect(Notify(r, "end", uuid), uuid, receiver);
  }

  /** Pending answers: entered by answers to known calls, taken out exactly by the events that tell them. */
  lemma AnswersExactly(w: World, e: Event, u: Uuid, t: Token)
    requires Inv(w) && Enabled(w, e)
    ensures Waits(RegistryStep(w.r, e), u, t) <==> WaitingAfter(w.r, e, u, t)
  {
    var r := w.r;
    match e
    case EvCompletion(c, error, receiver) => CompletionAnswers(r, c, error, receiver, u, t);
    case EvReset(order, receiver) => ResetRegistered(r, order, receiver);
    case EvPerformAnswer(uuid, audioConfigured, receiver) =>
      PerformedAnswers(r, uuid, audioConfigured, receiver, u, t);
    case EvPerformEnd(uuid, receiver) => ForgottenAnswers(r, uuid, receiver, u, t);
    case EvPerformStart(uuid, _, _, receiver) => ForgottenAnswers(r, uuid, receiver, u, t);
    case _ =>
  }

  /** The UUID has this video flag after the event. */
  predicate FlaggedAfter(r: Registry, e: Event, u: Uuid, hasVideo: bool) {
    var same := u in r.videoByUuid && r.videoByUuid[u] == hasVideo;
    match e
    case EvReport(callId, v, _, _, newUuid) =>
      if u == (if callId in r.uuidByCallId then r.uuidByCallId[callId] else newUuid) then hasVideo == v else same
    case _ => same && !EndsCall(e, u)
  }

  predicate IsFlagged(r: Registry, u: Uuid, hasVideo: bool) {
    u in r.videoByUuid && r.videoByUuid[u] == hasVideo
  }

  lemma CompletionFlags(r: Registry, c: Completion, error: Outcome, receiver: bool, u: Uuid, hasVideo: bool)
    ensures IsFlagged(Completed(r, c, error, receiver), u, hasVideo)
            <==> FlaggedAfter(r, EvCompletion(c, error, receiver), u, hasVideo)
  {
    CompletedEffect(r, c, error, receiver);
  }

  lemma ReportFlags(r: Registry, e: Event, u: Uuid, hasVideo: bool)
    requires e.EvReport?
    ensures IsFlagged(RegistryStep(r, e), u, hasVideo) <==> FlaggedAfter(r, e, u, hasVideo)
  {
  }

  lemma EndFlags(r: Registry, v: Uuid, receiver: bool, u: Uuid, hasVideo: bool)
    ensures IsFlagged(PerformEnd(r, v, receiver), u, hasVideo) <==> IsFlagged(r, u, hasVideo) && u != v
  {
    ForgetEffect(Notify(r, "end", v), v, receiver);
  }

  lemma ResetFlags(r: Registry, order: seq<Uuid>, receiver: bool)
    ensures ProviderReset(r, order, receiver).videoByUuid == map[]
  {
    CompleteAnswersEffect(r.(proximity := P.Reset(r.proximity, receiver), videoByUuid := map[]), order,
                          AnswerUnavailable);
  }

  /** Video flags: set by every report, lost exactly by the events that forget. */
  lemma FlagsExactly(w: World, e: Event, u: Uuid, hasVideo: bool)
    requires Inv(w) && Enabled(w, e)
    ensures IsFlagged(RegistryStep(w.r, e), u, hasVideo) <==> FlaggedAfter(w.r, e, u, hasVideo)
  {
    var r := w.r;
    match e
    case EvReport(_, _, _, _, _) => ReportFlags(r, e, u, hasVideo);
    case EvCompletion(c, error, receiver) => CompletionFlags(r, c, error, receiver, u, hasVideo);
    case EvReset(order, receiver) => ResetFlags(r, order, receiver);
    case EvPerformEnd(v, receiver) => EndFlags(r, v, receiver, u, hasVideo);
    case EvPerformStart(v, _, _, receiver) => EndFlags(r, v, receiver, u, hasVideo);
    case _ =>
  }

  /** The request is outstanding after the event. */
  predicate OutstandingAfter(r: Registry, e: Event, c: Completion) {
    match e
    case EvReport(callId, _, incoming, token, newUuid) =>
      var u := if callId in r.uuidByCallId then r.uuidByCallId[callId] else newUuid;
      c in r.outstanding || c == (if incoming then IncomingReported(u, token) else StartRequested(u, token))
    case EvAnswer(callId, token) =>
      c in r.outstanding || (callId in r.uuidByCallId && c == AnswerRequested(r.uuidByCallId[callId], token))
    case EvEnd(callId, token) =>
      c in r.outstanding || (callId in r.uuidByCallId && c == EndRequested(r.uuidByCallId[callId], token))
    case EvCompletion(d, _, _) => c in r.outstanding && c != d
    case _ => c in r.outstanding
  }

  /** Requests: one per report and per answer or end of a known call, answered once. */
  lemma RequestsExactly(r: Registry, e: Event, c: Completion)
    ensures c in RegistryStep(r, e).outstanding <==> OutstandingAfter(r, e, c)
  {
    match e
    case EvCompletion(d, error, receiver) => CompletedRequests(r, d, error, receiver);
    case EvReset(order, receiver) =>
      CompleteAnswersEffect(r.(proximity := P.Reset(r.proximity, receiver), videoByUuid := map[]), order,
                            AnswerUnavailable);
    case EvPerformEnd(uuid, receiver) => ForgetEffect(Notify(r, "end", uuid), uuid, receiver);
    case EvPerformStart(uuid, _, _, receiver) => ForgetEffect(Notify(r, "end", uuid), uuid, receiver);
    case _ =>
  }

  lemma CompletedRequests(r: Registry, d: Completion, error: Outcome, receiver: bool)
    ensures Completed(r, d, error, receiver).outstanding == r.outstanding - {d}
  {
    ForgetEffect(r.(outstanding := r.outstanding - {d}), d.uuid, receiver);
  }

  // ---------------------------------------------------------------- the proximity controller in a run

  /** What an event of the registry makes the controller do. */
  function ControllerEvents(r: Registry, e: Event): (events: seq<P.Event>)
    ensures |events| <= 1
  {
    match e
    case EvCompletion(c, error, receiver) => if Forgets(c, error) then [P.Ended(c.uuid, receiver)] else []
    case EvReset(_, receiver) => [P.WasReset(receiver)]
    case EvPerformAnswer(uuid, audioConfigured, receiver) =>
      if audioConfigured then [P.Started(uuid, uuid !in r.videoByUuid || r.videoByUuid[uuid], receiver)] else []
    case EvPerformEnd(uuid, receiver) => [P.Ended(uuid, receiver)]
    case EvPerformStart(uuid, isVideo, audioConfigured, receiver) =>
      [if audioConfigured then P.Started(uuid, isVideo, receiver) else P.Ended(uuid, receiver)]
    case EvAudio(active, receiver) => [P.AudioChanged(active, receiver)]
    case EvRoute(receiver) => [P.RouteChanged(receiver)]
    case _ => []
  }

  function ControllerStep(p: P.Prox, events: seq<P.Event>): P.Prox {
    if |events| == 1 then P.Step(p, events[0]) else p
  }

  lemma ResetProximity(r: Registry, order: seq<Uuid>, receiver: bool)
    ensures ProviderReset(r, order, receiver).proximity == P.Reset(r.proximity, receiver)
  {
    CompleteAnswersEffect(r.(proximity := P.Reset(r.proximity, receiver), videoByUuid := map[]), order,
                          AnswerUnavailable);
  }

  lemma ForgetProximity(r: Registry, uuid: Uuid, receiver: bool)
    ensures Forget(r, uuid, receiver).proximity == P.End(r.proximity, uuid, receiver)
  {
  }

  lemma CompletedProximity(r: Registry, c: Completion, error: Outcome, receiver: bool)
    ensures Completed(r, c, error, receiver).proximity
            == if Forgets(c, error) then P.End(r.proximity, c.uuid, receiver) else r.proximity
  {
    ForgetProximity(r.(outstanding := r.outstanding - {c}), c.uuid, receiver);
  }

  lemma PerformAnswerProximity(r: Registry, uuid: Uuid, audioConfigured: bool, receiver: bool)
    ensures PerformAnswer(r, uuid, audioConfigured, receiver).proximity
            == if audioConfigured
               then P.Start(r.proximity, uuid, uuid !in r.videoByUuid || r.videoByUuid[uuid], receiver)
               else r.proximity
  {
  }

  lemma StepProximity(r: Registry, e: Event)
    ensures RegistryStep(r, e).proximity == ControllerStep(r.proximity, ControllerEvents(r, e))
  {
    match e
    case EvCompletion(c, error, receiver) => CompletedProximity(r, c, error, receiver);
    case EvReset(order, receiver) => ResetProximity(r, order, receiver);
    case EvPerformAnswer(uuid, audioConfigured, receiver) => PerformAnswerProximity(r, uuid, audioConfigured, receiver);
    case EvPerformEnd(uuid, receiver) => ForgetProximity(Notify(r, "end", uuid), uuid, receiver);
    case EvPerformStart(uuid, _, _, receiver) => ForgetProximity(Notify(r, "end", uuid), uuid, receiver);
    case _ =>
  }

  // The condition of the switch in terms of positions in the run.

  /** The event makes the registry forget the UUID, or everything. */
  predicate EndsCall(e: Event, u: Uuid) {
    match e
    case EvCompletion(IncomingReported(v, _), error, _) => u == v && error != Success
    case EvCompletion(StartRequested(v, _), error, _) => u == v && error != Success
    case EvCompletion(EndRequested(v, _), error, _) => u == v && (error == Success || error == UnknownCall)
    case EvPerformEnd(v, _) => u == v
    case EvPerformStart(v, _, audioConfigured, _) => u == v && !audioConfigured
    case EvReset(_, _) => true
    case _ => false
  }

  /** The event puts the UUID in progress, with or without video. */
  predicate BeginsCall(r: Registry, e: Event, u: Uuid, hasVideo: bool) {
    match e
    case EvPerformAnswer(v, audioConfigured, _) =>
      u == v && audioConfigured && hasVideo == (u in r.videoByUuid ==> r.videoByUuid[u])
    case EvPerformStart(v, isVideo, audioConfigured, _) => u == v && audioConfigured && hasVideo == isVideo
    case _ => false
  }

  predicate ReplacesCall(r: Registry, e: Event, u: Uuid) {
    EndsCall(e, u) || BeginsCall(r, e, u, true) || BeginsCall(r, e, u, false)
  }

  ghost predicate BegunAt(es: seq<Event>, n: nat, u: Uuid, hasVideo: bool) {
    n < |es| && BeginsCall(Run(es[..n]).r, es[n], u, hasVideo)
  }

  ghost predicate ReplacedAt(es: seq<Event>, n: nat, u: Uuid) {
    n < |es| && ReplacesCall(Run(es[..n]).r, es[n], u)
  }

  /** Event n put the UUID in progress, and nothing ended or replaced it since. */
  ghost predicate CallSince(es: seq<Event>, n: nat, u: Uuid, hasVideo: bool) {
    BegunAt(es, n, u, hasVideo) && forall m: nat :: n < m < |es| ==> !ReplacedAt(es, m, u)
  }

  /** Event n activated the audio session, and nothing changed that since. */
  ghost predicate AudioSince(es: seq<Event>, n: nat) {
    && n < |es| && es[n].EvAudio? && es[n].active
    && forall m :: n < m < |es| ==> !es[m].EvAudio? && !es[m].EvReset?
  }

  /** The event makes the controller look at the route. */
  predicate LooksAtRoute(e: Event) {
    match e
    case EvCompletion(c, _, _) => EndsCall(e, c.uuid)
    case EvPerformAnswer(_, audioConfigured, _) => audioConfigured
    case _ => e.EvReset? || e.EvPerformEnd? || e.EvPerformStart? || e.EvAudio? || e.EvRoute?
  }

  predicate SeesReceiver(e: Event) {
    match e
    case EvCompletion(_, _, receiver) => receiver
    case EvReset(_, receiver) => receiver
    case EvPerformAnswer(_, _, receiver) => receiver
    case EvPerformEnd(_, receiver) => receiver
    case EvPerformStart(_, _, _, receiver) => receiver
    case EvAudio(_, receiver) => receiver
    case EvRoute(receiver) => receiver
    case _ => false
  }

  /** Event n was the last to look at the route, and the receiver was it. */
  ghost predicate ReceiverSince(es: seq<Event>, n: nat) {
    && n < |es| && LooksAtRoute(es[n]) && SeesReceiver(es[n])
    && forall m :: n < m < |es| ==> !LooksAtRoute(es[m])
  }

  ghost predicate InProgress(es: seq<Event>, u: Uuid, hasVideo: bool) {
    exists n: nat :: CallSince(es, n, u, hasVideo)
  }

  /** The route seen last is the receiver, audio is active, some voice call is in progress, and no video
      call is. */
  ghost predicate SwitchOn(es: seq<Event>) {
    && (exists n: nat :: ReceiverSince(es, n))
    && (exists n: nat :: AudioSince(es, n))
    && (exists u: Uuid :: InProgress(es, u, false))
    && (forall u: Uuid :: !InProgress(es, u, true))
  }

  /** How often the condition changes along the run. */
  ghost function SwitchFlips(es: seq<Event>): nat {
    if es == [] then 0
    else SwitchFlips(es[..|es| - 1]) + if SwitchOn(es) != SwitchOn(es[..|es| - 1]) then 1 else 0
  }

  lemma SameInPrefix(es: seq<Event>, n: nat, u: Uuid, hasVideo: bool)
    requires es != [] && n < |es| - 1
    ensures
      var init := es[..|es| - 1];
      && (BegunAt(es, n, u, hasVideo) <==> BegunAt(init, n, u, hasVideo))
      && (ReplacedAt(es, n, u) <==> ReplacedAt(init, n, u))
  {
    var init := es[..|es| - 1];
    assert init[n] == es[n] && init[..n] == es[..n];
  }

  lemma CallSinceOneMore(es: seq<Event>, n: nat, u: Uuid, hasVideo: bool)
    requires es != [] && n < |es| - 1
    ensures CallSince(es, n, u, hasVideo) <==>
              CallSince(es[..|es| - 1], n, u, hasVideo) && !ReplacedAt(es, |es| - 1, u)
  {
    var init := es[..|es| - 1];
    SameInPrefix(es, n, u, hasVideo);
    forall m: nat | m < |init|
      ensures ReplacedAt(es, m, u) <==> ReplacedAt(init, m, u)
    {
      SameInPrefix(es, m, u, hasVideo);
    }
    if CallSince(init, n, u, hasVideo) && !ReplacedAt(es, |es| - 1, u) {
      forall m: nat | n < m < |es|
        ensures !ReplacedAt(es, m, u)
      {
        assert m < |init| ==> !ReplacedAt(init, m, u);
      }
    }
    if CallSince(es, n, u, hasVideo) {
      forall m: nat | n < m < |init|
        ensures !ReplacedAt(init, m, u)
      {
        assert !ReplacedAt(es, m, u);
      }
    }
  }

  lemma InProgressOneMore(es: seq<Event>, u: Uuid, hasVideo: bool)
    requires es != []
    ensures
      var init, e := es[..|es| - 1], es[|es| - 1];
      var r := Run(init).r;
      InProgress(es, u, hasVideo) <==>
        BeginsCall(r, e, u, hasVideo) || (InProgress(init, u, hasVideo) && !ReplacesCall(r, e, u))
  {
    var init, last := es[..|es| - 1], |es| - 1;
    assert CallSince(es, last, u, hasVideo) <==> BegunAt(es, last, u, hasVideo);
    if n: nat :| CallSince(es, n, u, hasVideo) {
      if n < last {
        CallSinceOneMore(es, n, u, hasVideo);
      }
    }
    if n: nat :| CallSince(init, n, u, hasVideo) {
      CallSinceOneMore(es, n, u, hasVideo);
    }
  }

  lemma AudioOneMore(es: seq<Event>)
    requires es != []
    ensures
      var init, e := es[..|es| - 1], es[|es| - 1];
      (exists n: nat :: AudioSince(es, n)) <==>
        if e.EvAudio? then e.active else !e.EvReset? && exists n: nat :: AudioSince(init, n)
  {
    var init, e := es[..|es| - 1], es[|es| - 1];
    assert forall n: nat :: n < |init| ==> init[n] == es[n];
    if e.EvAudio? {
      assert e.active ==> AudioSince(es, |es| - 1);
    } else if !e.EvReset? {
      if n: nat :| AudioSince(init, n) {
        assert AudioSince(es, n);
      }
      if n: nat :| AudioSince(es, n) {
        assert AudioSince(init, n);
      }
    }
  }

  lemma RouteOneMore(es: seq<Event>)
    requires es != []
    ensures
      var init, e := es[..|es| - 1], es[|es| - 1];
      (exists n: nat :: ReceiverSince(es, n)) <==>
        if LooksAtRoute(e) then SeesReceiver(e) else exists n: nat :: ReceiverSince(init, n)
  {
    var init, e := es[..|es| - 1], es[|es| - 1];
    assert forall n: nat :: n < |init| ==> init[n] == es[n];
    if LooksAtRoute(e) {
      assert SeesReceiver(e) ==> ReceiverSince(es, |es| - 1);
    } else {
      if n: nat :| ReceiverSince(init, n) {
        assert ReceiverSince(es, n);
      }
      if n: nat :| ReceiverSince(es, n) {
        assert ReceiverSince(init, n);
      }
    }
  }

  /** One event, as the controller sees it. */
  lemma EventsMean(r: Registry, e: Event, u: Uuid, hasVideo: bool)
    ensures
      var events := ControllerEvents(r, e);
      if events == []
      then !ReplacesCall(r, e, u) && !e.EvAudio? && !e.EvReset? && !LooksAtRoute(e)
      else
        var event := events[0];
        && (event.Started? && event.uuid == u && event.hasVideo == hasVideo <==> BeginsCall(r, e, u, hasVideo))
        && (P.Replaces(event, u) <==> ReplacesCall(r, e, u))
        && (if event.AudioChanged? then e.EvAudio? && e.active == event.active else !e.EvAudio?)
        && (event.WasReset? <==> e.EvReset?)
        && LooksAtRoute(e) && event.receiver == SeesReceiver(e)
  {
  }

  lemma ControllerSees(r: Registry, e: Event, u: Uuid, hasVideo: bool)
    ensures
      var p, p' := r.proximity, RegistryStep(r, e).proximity;
      && (u in p'.calls && p'.calls[u] == hasVideo <==>
            BeginsCall(r, e, u, hasVideo) || (u in p.calls && p.calls[u] == hasVideo && !ReplacesCall(r, e, u)))
      && (p'.audioActive <==> if e.EvAudio? then e.active else !e.EvReset? && p.audioActive)
  {
    StepProximity(r, e);
    EventsMean(r, e, u, hasVideo);
    var events := ControllerEvents(r, e);
    if events != [] {
      P.StepCalls(r.proximity, events[0], u, hasVideo);
    }
  }

  lemma ControllerRefreshes(r: Registry, e: Event)
    requires P.Good(r.proximity)
    ensures
      var p, p' := r.proximity, RegistryStep(r, e).proximity;
      && P.Good(p')
      && |p'.outputs| == |p.outputs| + (if p'.enabled != p.enabled then 1 else 0)
      && (if LooksAtRoute(e) then p'.enabled == P.Wanted(p'.calls, p'.audioActive, SeesReceiver(e)) else p' == p)
  {
    StepProximity(r, e);
    EventsMean(r, e, 0, true);
    var events := ControllerEvents(r, e);
    if |events| == 1 {
      P.RefreshKeepsGood(P.Adjust(r.proximity, events[0]), events[0].receiver);
    }
  }

  /** The calls and the audio state of the controller are those of the positions. */
  lemma {:induction false} ControllerByPosition(es: seq<Event>, u: Uuid, hasVideo: bool)
    ensures u in Run(es).r.proximity.calls && Run(es).r.proximity.calls[u] == hasVideo <==> InProgress(es, u, hasVideo)
    ensures Run(es).r.proximity.audioActive <==> exists n: nat :: AudioSince(es, n)
  {
    if es != [] {
      var init := es[..|es| - 1];
      ControllerByPosition(init, u, hasVideo);
      ControllerSees(Run(init).r, es[|es| - 1], u, hasVideo);
      InProgressOneMore(es, u, hasVideo);
      AudioOneMore(es);
    }
  }

  lemma ValuesByPosition(es: seq<Event>, hasVideo: bool)
    ensures hasVideo in Run(es).r.proximity.calls.Values <==> exists u: Uuid :: InProgress(es, u, hasVideo)
  {
    var calls := Run(es).r.proximity.calls;
    if hasVideo in calls.Values {
      var u :| u in calls && calls[u] == hasVideo;
      ControllerByPosition(es, u, hasVideo);
    }
    if u: Uuid :| InProgress(es, u, hasVideo) {
      ControllerByPosition(es, u, hasVideo);
    }
  }

  lemma WantedByPosition(es: seq<Event>, receiver: bool)
    ensures
      var p := Run(es).r.proximity;
      P.Wanted(p.calls, p.audioActive, receiver) <==>
        && receiver && (exists n: nat :: AudioSince(es, n))
        && (exists u: Uuid :: InProgress(es, u, false)) && (forall u: Uuid :: !InProgress(es, u, true))
  {
    ControllerByPosition(es, 0, true);
    ValuesByPosition(es, false);
    ValuesByPosition(es, true);
  }

  /** An event that does not look at the route changes nothing the switch depends on. */
  lemma UnseenChangesNothing(es: seq<Event>)
    requires es != [] && !LooksAtRoute(es[|es| - 1])
    ensures SwitchOn(es) <==> SwitchOn(es[..|es| - 1])
  {
    var init := es[..|es| - 1];
    RouteOneMore(es);
    AudioOneMore(es);
    forall u: Uuid, v: bool
      ensures InProgress(es, u, v) <==> InProgress(init, u, v)
    {
      InProgressOneMore(es, u, v);
    }
  }

  lemma {:induction false} SwitchByPosition(es: seq<Event>)
    ensures P.Good(Run(es).r.proximity)
    ensures Run(es).r.proximity.enabled == SwitchOn(es)
    ensures |Run(es).r.proximity.outputs| == SwitchFlips(es)
  {
    if es != [] {
      var init, e := es[..|es| - 1], es[|es| - 1];
      SwitchByPosition(init);
      ControllerRefreshes(Run(init).r, e);
      if LooksAtRoute(e) {
        WantedByPosition(es, SeesReceiver(e));
        RouteOneMore(es);
      } else {
        UnseenChangesNothing(es);
      }
    }
  }

  /** In every run of the registry the switch alternates beginning with true, is set once per change of
      the condition on the events of the run, and its last value is that condition. */
  lemma SwitchFollowsRegistry(es: seq<Event>)
    ensures
      var outputs := Run(es).r.proximity.outputs;
      P.Alternates(outputs) && |outputs| == SwitchFlips(es) && P.LastOutput(outputs) == SwitchOn(es)
  {
    SwitchByPosition(es);
  }

  /** The system performs an answer or a start for an unregistered UUID with working audio. */
  predicate Strays(w: World, e: Event) {
    (e.EvPerformAnswer? || e.EvPerformStart?) && e.audioConfigured && e.uuid !in w.r.callIdByUuid
  }

  /** The proximity controller can be left holding a call the registry does not know: exactly by such
      an event. */
  lemma StrayProximityExactly(w: World, e: Event)
    requires Inv(w) && Enabled(w, e) && w.r.proximity.calls.Keys <= w.r.callIdByUuid.Keys
    ensures Step(w, e).r.proximity.calls.Keys <= Step(w, e).r.callIdByUuid.Keys <==> !Strays(w, e)
  {
    match e
    case EvPerformStart(uuid, isVideo, audioConfigured, receiver) =>
      StrayAfterPerformStart(w.r, uuid, isVideo, audioConfigured, receiver);
    case EvPerformAnswer(uuid, audioConfigured, receiver) => StrayAfterAnswer(w.r, uuid, audioConfigured, receiver);
    case _ => NotStray(w, e);
  }

  /** So in a run without such an event the controller only ever holds registered calls. */
  lemma {:induction false} NoStrayInRun(es: seq<Event>)
    requires ValidRun(es) && forall n :: 0 <= n < |es| ==> !Strays(Run(es[..n]), es[n])
    ensures Run(es).r.proximity.calls.Keys <= Run(es).r.callIdByUuid.Keys
  {
    if es != [] {
      var n := |es| - 1;
      var init := es[..n];
      forall k | 0 <= k < |init|
        ensures !Strays(Run(init[..k]), init[k])
      {
        assert init[..k] == es[..k];
      }
      NoStrayInRun(init);
      RunInv(init);
      assert !Strays(Run(es[..n]), es[n]);
      StrayProximityExactly(Run(init), es[n]);
    }
  }

  /** A reachable stray: the report of an incoming call fails, so its UUID is forgotten, and then the
      answer is performed. It counts as a video call, so until it is ended or reset the switch
      stays off under every audio state and route. */
  lemma StrayRun(callId: string, hasVideo: bool, u: Uuid, receiver: bool) returns (es: seq<Event>)
    ensures ValidRun(es) && u in Run(es).r.proximity.calls && u !in Run(es).r.callIdByUuid
    ensures forall audio, route :: !P.Wanted(Run(es).r.proximity.calls, audio, route)
  {
    var c := IncomingReported(u, 0);
    var e0, e1 := EvReport(callId, hasVideo, true, 0, u), EvCompletion(c, OtherError, receiver);
    Extend([], e0);
    Extend([e0], e1);
    CompletedEffect(Run([e0]).r, c, OtherError, receiver);
    es := [e0, e1];
    assert [] + [e0] == [e0] && [e0] + [e1] == es;
    Extend(es, EvPerformAnswer(u, true, receiver));
    es := es + [EvPerformAnswer(u, true, receiver)];
  }

  lemma Extend(es: seq<Event>, e: Event)
    requires ValidRun(es) && Enabled(Run(es), e)
    ensures ValidRun(es + [e]) && Run(es + [e]) == Step(Run(es), e)
  {
  }

  lemma NotStray(w: World, e: Event)
    requires Inv(w) && Enabled(w, e) && w.r.proximity.calls.Keys <= w.r.callIdByUuid.Keys
    requires !e.EvPerformAnswer? && !e.EvPerformStart?
    ensures Step(w, e).r.proximity.calls.Keys <= Step(w, e).r.callIdByUuid.Keys
  {
    match e
    case EvCompletion(c, error, receiver) => CompletedEffect(w.r, c, error, receiver);
    case EvReset(order, receiver) =>
      CompleteAnswersEffect(w.r.(proximity := P.Reset(w.r.proximity, receiver), videoByUuid := map[]), order,
                            AnswerUnavailable);
    case EvPerformEnd(uuid, receiver) => ForgetEffect(Notify(w.r, "end", uuid), uuid, receiver);
    case _ =>
  }

  lemma StrayAfterStart(r: Registry, uuid: Uuid, isVideo: bool, receiver: bool)
    ensures P.Start(r.proximity, uuid, isVideo, receiver).calls.Keys == r.proximity.calls.Keys + {uuid}
  {
  }

  lemma StrayAfterPerformStart(r: Registry, uuid: Uuid, isVideo: bool, audioConfigured: bool, receiver: bool)
    ensures
      var r' := PerformStart(r, uuid, isVideo, audioConfigured, receiver);
      if audioConfigured
      then r'.callIdByUuid == r.callIdByUuid && r'.proximity.calls.Keys == r.proximity.calls.Keys + {uuid}
      else r'.callIdByUuid == r.callIdByUuid - {uuid} && r'.proximity.calls == r.proximity.calls - {uuid}
  {
    ForgetEffect(Notify(r, "end", uuid), uuid, receiver);
    StrayAfterStart(r, uuid, isVideo, receiver);
  }

  lemma StrayAfterAnswer(r: Registry, uuid: Uuid, audioConfigured: bool, receiver: bool)
    ensures
      var r' := PerformAnswer(r, uuid, audioConfigured, receiver);
      && r'.callIdByUuid == r.callIdByUuid
      && r'.proximity.calls.Keys == r.proximity.calls.Keys + if audioConfigured then {uuid} else {}
  {
    StrayAfterStart(r, uuid, if uuid in r.videoByUuid then r.videoByUuid[uuid] else true, receiver);
  }

  // ---------------------------------------------------------------- the log only grows

  lemma {:induction false} CompleteAnswersPrefix(r: Registry, uuids: seq<Uuid>, outcome: Outcome)
    ensures r.fired <= CompleteAnswers(r, uuids, outcome).fired
  {
    if uuids != [] {
      CompleteAnswersPrefix(r, uuids[..|uuids| - 1], outcome);
    }
  }

  lemma FiredPrefix(w: World, e: Event)
    requires Enabled(w, e)
    ensures w.r.fired <= Step(w, e).r.fired
  {
    var r := w.r;
    match e
    case EvCompletion(c, error, receiver) => CompletedPrefix(r, c, error, receiver);
    case EvReset(order, receiver) =>
      CompleteAnswersPrefix(r.(proximity := P.Reset(r.proximity, receiver), videoByUuid := map[]), order,
                            AnswerUnavailable);
    case EvPerformEnd(uuid, receiver) => ForgetEffect(Notify(r, "end", uuid), uuid, receiver);
    case EvPerformStart(uuid, _, _, receiver) => ForgetEffect(Notify(r, "end", uuid), uuid, receiver);
    case _ =>
  }

  lemma CompletedPrefix(r: Registry, c: Completion, error: Outcome, receiver: bool)
    ensures r.fired <= Completed(r, c, error, receiver).fired
  {
    ForgetEffect(r.(outstanding := r.outstanding - {c}), c.uuid, receiver);
  }
}
