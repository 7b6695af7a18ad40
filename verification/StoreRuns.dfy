/** Interleavings of the four stores over the one keychain: each store behaves as if it had a typed
    dictionary of its own, records stay listed under failures, and pins stay put. */
module StoreRuns {
  import opened Bytes
  import opened Decimal
  import opened Keychain
  import opened KeyStores

  datatype World = World(
    items: Items,
    active: set<string>,
    preKeyIds: set<u32>,
    nextPreKeyId: u32,
    signedIds: set<u32>,
    rotation: Option<int>)

  const START := World(map[], {}, {}, 0, {}, None)

  datatype Event =
    | EvStoreSession(key: string, data: Data, f: Fate, fm: Fate)
    | EvDeleteSession(key: string, ok: bool, fm: Fate)
    | EvDeleteEvery(order: seq<string>, n: nat, fm: Fate)
    | EvCleanup(loadFails: set<string>, fm: Fate)
    | EvStorePreKey(id: u32, data: Data, f: Fate, fc: Fate, fi: Fate)
    | EvRemovePreKey(id: u32, ok: bool, fc: Fate, fi: Fate)
    | EvNextPreKeyId(fc: Fate, fi: Fate)
    | EvStoreSigned(id: u32, data: Data, f: Fate, fi: Fate, fr: Fate)
    | EvRemoveSigned(id: u32, ok: bool, fi: Fate, fr: Fate)
    | EvRotation(t: int, fi: Fate, fr: Fate)
    | EvStorePair(data: Data, f: Fate)
    | EvStoreRegistration(registrationId: u32, f: Fate)
    | EvStoreIdentity(name: string, data: Data, loadOk: bool, f: Fate)
    | EvDeleteIdentity(name: string, ok: bool)

  function StoreOf(e: Event): Store {
    match e
    case EvStoreSession(_, _, _, _) => Sessions
    case EvDeleteSession(_, _, _) => Sessions
    case EvDeleteEvery(_, _, _) => Sessions
    case EvCleanup(_, _) => Sessions
    case EvStorePreKey(_, _, _, _, _) => PreKeys
    case EvRemovePreKey(_, _, _, _) => PreKeys
    case EvNextPreKeyId(_, _) => PreKeys
    case EvStoreSigned(_, _, _, _, _) => SignedPreKeys
    case EvRemoveSigned(_, _, _, _) => SignedPreKeys
    case EvRotation(_, _, _) => SignedPreKeys
    case _ => Identities
  }

  predicate IsSessionKey(key: string) {
    ':' in key
  }

  /** Session keys are the ones the store builds, no peer is called `pair`, and deleting everything
      enumerates the index. */
  ghost predicate Admissible(w: World, e: Event) {
    match e
    case EvStoreSession(key, _, _, _) => IsSessionKey(key)
    case EvDeleteSession(key, _, _) => IsSessionKey(key)
    case EvDeleteEvery(order, n, _) => n <= |order| && (set k | k in order) == w.active
    case EvStoreIdentity(name, _, _, _) => name != "pair"
    case EvDeleteIdentity(name, _) => name != "pair"
    case _ => true
  }

  function WithSessions(w: World, s: SessionState): World {
    w.(items := s.items, active := s.active)
  }

  function WithPreKeys(w: World, s: PreKeyState): World {
    w.(items := s.items, preKeyIds := s.ids, nextPreKeyId := s.next)
  }

  function WithSigned(w: World, s: SignedState): World {
    w.(items := s.items, signedIds := s.ids, rotation := s.rotation)
  }

  /** What the stores do, on the shared dictionary of tags. */
  ghost function Step(w: World, e: Event): World
    requires Admissible(w, e)
  {
    var ss, ps, gs := SessionState(w.items, w.active), PreKeyState(w.items, w.preKeyIds, w.nextPreKeyId),
                      SignedState(w.items, w.signedIds, w.rotation);
    match e
    case EvStoreSession(key, data, f, fm) => WithSessions(w, StoreSession(ss, key, data, f, fm))
    case EvDeleteSession(key, ok, fm) => WithSessions(w, DeleteSession(ss, key, ok, fm))
    case EvDeleteEvery(order, n, fm) => WithSessions(w, DeleteEverySession(ss, order, n, fm))
    case EvCleanup(loadFails, fm) => WithSessions(w, Cleanup(ss, loadFails, fm))
    case EvStorePreKey(id, data, f, fc, fi) => WithPreKeys(w, StorePreKey(ps, id, data, f, fc, fi))
    case EvRemovePreKey(id, ok, fc, fi) => WithPreKeys(w, RemovePreKey(ps, id, ok, fc, fi))
    case EvNextPreKeyId(fc, fi) => WithPreKeys(w, NextPreKeyId(ps, fc, fi))
    case EvStoreSigned(id, data, f, fi, fr) => WithSigned(w, StoreSigned(gs, id, data, f, fi, fr))
    case EvRemoveSigned(id, ok, fi, fr) => WithSigned(w, RemoveSigned(gs, id, ok, fi, fr))
    case EvRotation(t, fi, fr) => WithSigned(w, UpdateRotation(gs, t, fi, fr))
    case EvStorePair(data, f) => w.(items := Put(w.items, Tag(IdentityPair), Blob(data), f).items)
    case EvStoreRegistration(n, f) => w.(items := Put(w.items, Tag(RegistrationId), Number(n), f).items)
    case EvStoreIdentity(name, data, loadOk, f) => w.(items := StoreIdentity(w.items, name, data, loadOk, f).items)
    case EvDeleteIdentity(name, ok) => w.(items := Drop(w.items, Tag(PeerIdentity(name)), ok))
  }

  ghost function Run(es: seq<Event>): World {
    if es == [] then START
    else
      var w := Run(es[..|es| - 1]);
      if Admissible(w, es[|es| - 1]) then Step(w, es[|es| - 1]) else w
  }

  ghost predicate ValidRun(es: seq<Event>) {
    es == [] || (ValidRun(es[..|es| - 1]) && Admissible(Run(es[..|es| - 1]), es[|es| - 1]))
  }

  // ---------------------------------------------------------------- one store on its own

  type Entries = imap<Slot, Record>

  /** A store alone: a dictionary keyed by slots, and its in-memory index. No tags. */
  datatype Part =
    | SessionPart(entries: Entries, active: set<string>)
    | PreKeyPart(entries: Entries, ids: set<u32>, next: u32)
    | SignedPart(entries: Entries, ids: set<u32>, rotation: Option<int>)
    | IdentityPart(entries: Entries)
    | ManagerPart(entries: Entries)

  ghost function PartOf(w: World, o: Store): Part {
    var m := Typed(w.items, o);
    match o
    case Sessions => SessionPart(m, w.active)
    case PreKeys => PreKeyPart(m, w.preKeyIds, w.nextPreKeyId)
    case SignedPreKeys => SignedPart(m, w.signedIds, w.rotation)
    case Identities => IdentityPart(m)
    case Manager => ManagerPart(m)
  }

  ghost function SaveSessionPart(m: Entries, active: set<string>, fm: Fate): Part {
    SessionPart(TypedPut(m, SessionList, Keys(active), fm), active)
  }

  ghost function RemovedEach(m: Entries, keys: seq<string>): Entries {
    if keys == [] then m else Removed(RemovedEach(m, keys[..|keys| - 1]), Session(keys[|keys| - 1]))
  }

  ghost function LoadablePart(m: Entries, active: set<string>, loadFails: set<string>): set<string> {
    set k | k in active && k !in loadFails && Session(k) in m
  }

  ghost function SessionStep(m: Entries, active: set<string>, e: Event): Part
    requires StoreOf(e) == Sessions && (e.EvDeleteEvery? ==> e.n <= |e.order|)
  {
    match e
    case EvStoreSession(key, data, f, fm) =>
      var m' := TypedPut(m, Session(key), Blob(data), f);
      if TypedPutOk(m, Session(key), f) then SaveSessionPart(m', active + {key}, fm) else SessionPart(m', active)
    case EvDeleteSession(key, ok, fm) =>
      if ok then SaveSessionPart(Removed(m, Session(key)), active - {key}, fm) else SessionPart(m, active)
    case EvDeleteEvery(order, n, fm) =>
      var m' := RemovedEach(m, order[..n]);
      if n == |order| then SaveSessionPart(m', {}, fm) else SessionPart(m', active)
    case EvCleanup(loadFails, fm) =>
      var valid := LoadablePart(m, active, loadFails);
      if |active| - |valid| > 0 then SaveSessionPart(m, valid, fm) else SessionPart(m, active)
  }

  ghost function SavePreKeyPart(m: Entries, ids: set<u32>, next: u32, fc: Fate, fi: Fate): Part {
    PreKeyPart(TypedPut(TypedPut(m, PreKeyCounter, Number(next), fc), PreKeyIds, IdSet(ids), fi), ids, next)
  }

  ghost function PreKeyStep(m: Entries, ids: set<u32>, next: u32, e: Event): Part
    requires StoreOf(e) == PreKeys
  {
    match e
    case EvStorePreKey(id, data, f, fc, fi) =>
      var m' := TypedPut(m, PreKey(id), Blob(data), f);
      if TypedPutOk(m, PreKey(id), f) then SavePreKeyPart(m', ids + {id}, next, fc, fi) else PreKeyPart(m', ids, next)
    case EvRemovePreKey(id, ok, fc, fi) =>
      if ok then SavePreKeyPart(Removed(m, PreKey(id)), ids - {id}, next, fc, fi) else PreKeyPart(m, ids, next)
    case EvNextPreKeyId(fc, fi) => SavePreKeyPart(m, ids, Successor(next), fc, fi)
  }

  ghost function SaveSignedPart(m: Entries, ids: set<u32>, rotation: Option<int>, fi: Fate, fr: Fate): Part {
    var listed := TypedPut(m, SignedPreKeyIds, IdSet(ids), fi);
    var timed := if rotation.None? then listed else TypedPut(listed, LastRotation, Time(rotation.value), fr);
    SignedPart(timed, ids, rotation)
  }

  ghost function SignedStep(m: Entries, ids: set<u32>, rotation: Option<int>, e: Event): Part
    requires StoreOf(e) == SignedPreKeys
  {
    match e
    case EvStoreSigned(id, data, f, fi, fr) =>
      var m' := TypedPut(m, SignedPreKey(id), Blob(data), f);
      if TypedPutOk(m, SignedPreKey(id), f) then SaveSignedPart(m', ids + {id}, rotation, fi, fr)
      else SignedPart(m', ids, rotation)
    case EvRemoveSigned(id, ok, fi, fr) =>
      if ok then SaveSignedPart(Removed(m, SignedPreKey(id)), ids - {id}, rotation, fi, fr)
      else SignedPart(m, ids, rotation)
    case EvRotation(t, fi, fr) => SaveSignedPart(m, ids, Some(t), fi, fr)
  }

  ghost function IdentityStep(m: Entries, e: Event): Part
    requires StoreOf(e) == Identities
  {
    match e
    case EvStorePair(data, f) => IdentityPart(TypedPut(m, IdentityPair, Blob(data), f))
    case EvStoreRegistration(n, f) => IdentityPart(TypedPut(m, RegistrationId, Number(n), f))
    case EvStoreIdentity(name, data, loadOk, f) =>
      var s := PeerIdentity(name);
      if !loadOk || (s in m && m[s] != Blob(data)) then IdentityPart(m) else IdentityPart(TypedPut(m, s, Blob(data), f))
    case EvDeleteIdentity(name, ok) => IdentityPart(TypedDrop(m, PeerIdentity(name), ok))
  }

  ghost predicate Applicable(p: Part, e: Event) {
    match StoreOf(e)
    case Sessions => p.SessionPart? && (e.EvDeleteEvery? ==> e.n <= |e.order|)
    case PreKeys => p.PreKeyPart?
    case SignedPreKeys => p.SignedPart?
    case Identities => p.IdentityPart?
    case Manager => false
  }

  ghost function PartStep(p: Part, e: Event): Part
    requires Applicable(p, e)
  {
    match p
    case SessionPart(m, active) => SessionStep(m, active, e)
    case PreKeyPart(m, ids, next) => PreKeyStep(m, ids, next, e)
    case SignedPart(m, ids, rotation) => SignedStep(m, ids, rotation, e)
    case IdentityPart(m) => IdentityStep(m, e)
    case ManagerPart(_) => p
  }

  /** Store o alone, fed only the events of es that are its own. */
  ghost function RunPart(o: Store, es: seq<Event>): Part {
    if es == [] then PartOf(START, o)
    else
      var p, e := RunPart(o, es[..|es| - 1]), es[|es| - 1];
      if StoreOf(e) == o && Applicable(p, e) then PartStep(p, e) else p
  }

  // ---------------------------------------------------------------- simulation

  lemma SaveSessionsSim(w: World, s: SessionState, fm: Fate, o: Store)
    ensures
      var w' := WithSessions(w, SaveSessions(s, fm));
      && (o == Sessions ==> PartOf(w', o) == SaveSessionPart(Typed(s.items, Sessions), s.active, fm))
      && (o != Sessions ==> Typed(w'.items, o) == Typed(s.items, o))
  {
    PutIsTyped(s.items, SessionList, Keys(s.active), fm, o);
  }

  lemma {:induction false} DropEachSim(items: Items, keys: seq<string>, o: Store)
    requires forall k :: k in keys ==> IsSessionKey(k)
    ensures Typed(DropEach(items, keys), o)
            == if o == Sessions then RemovedEach(Typed(items, o), keys) else Typed(items, o)
  {
    if keys != [] {
      var init, last := keys[..|keys| - 1], keys[|keys| - 1];
      assert last in keys && forall k :: k in init ==> k in keys;
      DropEachSim(items, init, o);
      assert "list"[0] != ':' && !IsSessionKey("list");
      DropIsTyped(DropEach(items, init), Session(last), true, o);
    }
  }

  lemma NotList(key: string)
    requires IsSessionKey(key)
    ensures !Ambiguous(Session(key))
  {
  }

  lemma SessionSim(w: World, e: Event, o: Store)
    requires StoreOf(e) == Sessions && Admissible(w, e) && forall k :: k in w.active ==> IsSessionKey(k)
    ensures o == Sessions ==> PartOf(Step(w, e), o) == SessionStep(Typed(w.items, o), w.active, e)
    ensures o != Sessions ==> PartOf(Step(w, e), o) == PartOf(w, o)
  {
    var s := SessionState(w.items, w.active);
    match e
    case EvStoreSession(key, data, f, fm) =>
      NotList(key);
      PutIsTyped(w.items, Session(key), Blob(data), f, o);
      SaveSessionsSim(w, SessionState(Put(w.items, Tag(Session(key)), Blob(data), f).items, w.active + {key}), fm, o);
    case EvDeleteSession(key, ok, fm) =>
      NotList(key);
      DropIsTyped(w.items, Session(key), true, o);
      SaveSessionsSim(w, SessionState(Drop(w.items, Tag(Session(key)), true), w.active - {key}), fm, o);
    case EvDeleteEvery(_, _, _) => DeleteEverySim(w, e, o);
    case EvCleanup(loadFails, fm) => CleanupSim(w, loadFails, fm, o);
  }

  lemma DeleteEverySim(w: World, e: Event, o: Store)
    requires e.EvDeleteEvery? && Admissible(w, e) && forall k :: k in w.active ==> IsSessionKey(k)
    ensures o == Sessions ==> PartOf(Step(w, e), o) == SessionStep(Typed(w.items, o), w.active, e)
    ensures o != Sessions ==> PartOf(Step(w, e), o) == PartOf(w, o)
  {
    var done := e.order[..e.n];
    assert forall k :: k in done ==> k in e.order && k in (set k | k in e.order);
    DropEachSim(w.items, done, o);
    SaveSessionsSim(w, SessionState(DropEach(w.items, done), {}), e.fm, o);
  }

  lemma CleanupSim(w: World, loadFails: set<string>, fm: Fate, o: Store)
    requires forall k :: k in w.active ==> IsSessionKey(k)
    ensures
      var e := EvCleanup(loadFails, fm);
      && (o == Sessions ==> PartOf(Step(w, e), o) == SessionStep(Typed(w.items, o), w.active, e))
      && (o != Sessions ==> PartOf(Step(w, e), o) == PartOf(w, o))
  {
    var s := SessionState(w.items, w.active);
    LoadableAgree(w, loadFails);
    SaveSessionsSim(w, s.(active := Loadable(s, loadFails)), fm, o);
  }

  lemma LoadableAgree(w: World, loadFails: set<string>)
    requires forall k :: k in w.active ==> IsSessionKey(k)
    ensures Loadable(SessionState(w.items, w.active), loadFails)
            == LoadablePart(Typed(w.items, Sessions), w.active, loadFails)
  {
  }

  lemma SavePreKeysSim(w: World, s: PreKeyState, fc: Fate, fi: Fate, o: Store)
    ensures
      var w' := WithPreKeys(w, SavePreKeys(s, fc, fi));
      && (o == PreKeys ==> PartOf(w', o) == SavePreKeyPart(Typed(s.items, PreKeys), s.ids, s.next, fc, fi))
      && (o != PreKeys ==> Typed(w'.items, o) == Typed(s.items, o))
  {
    PutIsTyped(s.items, PreKeyCounter, Number(s.next), fc, o);
    PutIsTyped(Put(s.items, Tag(PreKeyCounter), Number(s.next), fc).items, PreKeyIds, IdSet(s.ids), fi, o);
  }

  lemma StorePreKeySim(w: World, e: Event, o: Store)
    requires e.EvStorePreKey?
    ensures o == PreKeys ==> PartOf(Step(w, e), o) == PreKeyStep(Typed(w.items, o), w.preKeyIds, w.nextPreKeyId, e)
    ensures o != PreKeys ==> PartOf(Step(w, e), o) == PartOf(w, o)
  {
    var s := PreKeyState(w.items, w.preKeyIds, w.nextPreKeyId);
    PutIsTyped(w.items, PreKey(e.id), Blob(e.data), e.f, o);
    var items := Put(w.items, Tag(PreKey(e.id)), Blob(e.data), e.f).items;
    SavePreKeysSim(w, s.(items := items, ids := s.ids + {e.id}), e.fc, e.fi, o);
  }

  lemma RemovePreKeySim(w: World, e: Event, o: Store)
    requires e.EvRemovePreKey?
    ensures o == PreKeys ==> PartOf(Step(w, e), o) == PreKeyStep(Typed(w.items, o), w.preKeyIds, w.nextPreKeyId, e)
    ensures o != PreKeys ==> PartOf(Step(w, e), o) == PartOf(w, o)
  {
    var s := PreKeyState(w.items, w.preKeyIds, w.nextPreKeyId);
    DropIsTyped(w.items, PreKey(e.id), true, o);
    SavePreKeysSim(w, s.(items := Drop(w.items, Tag(PreKey(e.id)), true), ids := s.ids - {e.id}), e.fc, e.fi, o);
  }

  lemma PreKeySim(w: World, e: Event, o: Store)
    requires StoreOf(e) == PreKeys && Admissible(w, e)
    ensures o == PreKeys ==> PartOf(Step(w, e), o) == PreKeyStep(Typed(w.items, o), w.preKeyIds, w.nextPreKeyId, e)
    ensures o != PreKeys ==> PartOf(Step(w, e), o) == PartOf(w, o)
  {
    match e
    case EvStorePreKey(_, _, _, _, _) => StorePreKeySim(w, e, o);
    case EvRemovePreKey(_, _, _, _) => RemovePreKeySim(w, e, o);
    case EvNextPreKeyId(fc, fi) =>
      SavePreKeysSim(w, PreKeyState(w.items, w.preKeyIds, Successor(w.nextPreKeyId)), fc, fi, o);
  }

  lemma SaveSignedSim(w: World, s: SignedState, fi: Fate, fr: Fate, o: Store)
    ensures
      var w' := WithSigned(w, SaveSigned(s, fi, fr));
      && (o == SignedPreKeys ==>
            PartOf(w', o) == SaveSignedPart(Typed(s.items, SignedPreKeys), s.ids, s.rotation, fi, fr))
      && (o != SignedPreKeys ==> Typed(w'.items, o) == Typed(s.items, o))
  {
    PutIsTyped(s.items, SignedPreKeyIds, IdSet(s.ids), fi, o);
    if s.rotation.Some? {
      var listed := Put(s.items, Tag(SignedPreKeyIds), IdSet(s.ids), fi).items;
      PutIsTyped(listed, LastRotation, Time(s.rotation.value), fr, o);
    }
  }

  lemma SignedSim(w: World, e: Event, o: Store)
    requires StoreOf(e) == SignedPreKeys && Admissible(w, e)
    ensures o == SignedPreKeys ==> PartOf(Step(w, e), o) == SignedStep(Typed(w.items, o), w.signedIds, w.rotation, e)
    ensures o != SignedPreKeys ==> PartOf(Step(w, e), o) == PartOf(w, o)
  {
    var s := SignedState(w.items, w.signedIds, w.rotation);
    match e
    case EvStoreSigned(id, data, f, fi, fr) =>
      PutIsTyped(w.items, SignedPreKey(id), Blob(data), f, o);
      var items := Put(w.items, Tag(SignedPreKey(id)), Blob(data), f).items;
      SaveSignedSim(w, s.(items := items, ids := s.ids + {id}), fi, fr, o);
    case EvRemoveSigned(id, ok, fi, fr) =>
      DropIsTyped(w.items, SignedPreKey(id), true, o);
      SaveSignedSim(w, s.(items := Drop(w.items, Tag(SignedPreKey(id)), true), ids := s.ids - {id}), fi, fr, o);
    case EvRotation(t, fi, fr) => SaveSignedSim(w, s.(rotation := Some(t)), fi, fr, o);
  }

  lemma IdentitySim(w: World, e: Event, o: Store)
    requires StoreOf(e) == Identities && Admissible(w, e)
    ensures o == Identities ==> PartOf(Step(w, e), o) == IdentityStep(Typed(w.items, o), e)
    ensures o != Identities ==> PartOf(Step(w, e), o) == PartOf(w, o)
  {
    match e
    case EvStorePair(data, f) => PutIsTyped(w.items, IdentityPair, Blob(data), f, o);
    case EvStoreRegistration(n, f) => PutIsTyped(w.items, RegistrationId, Number(n), f, o);
    case EvStoreIdentity(_, _, _, _) => StoreIdentitySim(w, e, o);
    case EvDeleteIdentity(name, ok) => DropIsTyped(w.items, PeerIdentity(name), ok, o);
  }

  lemma StoreIdentitySim(w: World, e: Event, o: Store)
    requires e.EvStoreIdentity? && Admissible(w, e)
    ensures o == Identities ==> PartOf(Step(w, e), o) == IdentityStep(Typed(w.items, o), e)
    ensures o != Identities ==> PartOf(Step(w, e), o) == PartOf(w, o)
  {
    PutIsTyped(w.items, PeerIdentity(e.name), Blob(e.data), e.f, o);
    assert PeerIdentity(e.name) in Typed(w.items, Identities) <==> Tag(PeerIdentity(e.name)) in w.items;
  }

  /** One step of the shared keychain is one step of the store it belongs to, on that store's own
      typed dictionary, and no step of any other store. */
  lemma StepSimulates(w: World, e: Event, o: Store)
    requires Admissible(w, e) && forall k :: k in w.active ==> IsSessionKey(k)
    ensures StoreOf(e) == o ==> Applicable(PartOf(w, o), e) && PartOf(Step(w, e), o) == PartStep(PartOf(w, o), e)
    ensures StoreOf(e) != o ==> PartOf(Step(w, e), o) == PartOf(w, o)
    ensures forall k :: k in Step(w, e).active ==> IsSessionKey(k)
  {
    match StoreOf(e)
    case Sessions => SessionSim(w, e, o);
    case PreKeys => PreKeySim(w, e, o);
    case SignedPreKeys => SignedSim(w, e, o);
    case Identities => IdentitySim(w, e, o);
  }

  /** Non-interference: after any interleaving, with any failures, each store is exactly where its
      own events alone would have brought a private typed dictionary. */
  lemma {:induction false} StoresAreIndependent(es: seq<Event>, o: Store)
    requires ValidRun(es)
    ensures PartOf(Run(es), o) == RunPart(o, es)
    ensures forall k :: k in Run(es).active ==> IsSessionKey(k)
  {
    if es != [] {
      StoresAreIndependent(es[..|es| - 1], o);
      StepSimulates(Run(es[..|es| - 1]), es[|es| - 1], o);
    }
  }

  // ---------------------------------------------------------------- records stay listed

  /** Every stored record of the store is in its in-memory index. */
  ghost predicate Listed(p: Part) {
    match p
    case SessionPart(m, active) => forall k :: Session(k) in m ==> k in active
    case PreKeyPart(m, ids, _) => forall id :: PreKey(id) in m ==> id in ids
    case SignedPart(m, ids, _) => forall id :: SignedPreKey(id) in m ==> id in ids
    case IdentityPart(_) => true
    case ManagerPart(_) => true
  }

  /** The one way to lose sight of a record: a cleanup during which loading it throws. */
  ghost predicate LosesSight(p: Part, e: Event) {
    p.SessionPart? && e.EvCleanup? && exists k :: k in p.active && k in e.loadFails && Session(k) in p.entries
  }

  lemma CleanupPart(m: Entries, active: set<string>, loadFails: set<string>, fm: Fate)
    ensures
      var p := SessionStep(m, active, EvCleanup(loadFails, fm));
      && p.SessionPart? && p.active == LoadablePart(m, active, loadFails)
      && forall k :: Session(k) in p.entries <==> Session(k) in m
  {
    var valid := LoadablePart(m, active, loadFails);
    assert active == valid + (active - valid);
    assert |active| == |valid| + |active - valid|;
  }

  lemma CleanupListed(m: Entries, active: set<string>, loadFails: set<string>, fm: Fate)
    requires forall k :: Session(k) in m ==> k in active
    ensures Listed(SessionStep(m, active, EvCleanup(loadFails, fm)))
            <==> !exists k :: k in active && k in loadFails && Session(k) in m
  {
    var p := SessionStep(m, active, EvCleanup(loadFails, fm));
    CleanupPart(m, active, loadFails, fm);
    if k :| k in active && k in loadFails && Session(k) in m {
      assert Session(k) in p.entries && k !in p.active;
    }
  }

  lemma {:induction false} RemovedEachSubset(m: Entries, keys: seq<string>, s: Slot)
    requires s in RemovedEach(m, keys)
    ensures s in m && forall k :: k in keys ==> s != Session(k)
  {
    if keys != [] {
      var init := keys[..|keys| - 1];
      RemovedEachSubset(m, init, s);
      assert keys == init + [keys[|keys| - 1]];
    }
  }

  lemma SessionListed(m: Entries, active: set<string>, e: Event)
    requires StoreOf(e) == Sessions && !e.EvCleanup?
    requires e.EvDeleteEvery? ==> e.n <= |e.order| && active == set k | k in e.order
    requires forall k :: Session(k) in m ==> k in active
    ensures Listed(SessionStep(m, active, e))
  {
    var p := SessionStep(m, active, e);
    match e
    case EvStoreSession(key, data, f, fm) =>
    case EvDeleteSession(key, ok, fm) =>
    case EvDeleteEvery(order, n, fm) =>
      assert n == |order| ==> order[..n] == order;
      forall k | Session(k) in p.entries
        ensures k in p.active
      {
        RemovedEachSubset(m, order[..n], Session(k));
      }
  }

  /** A step keeps every stored record listed, whatever writes and deletes fail, if and only if it is
      not a cleanup that fails to load a stored session. */
  lemma StepKeepsListed(w: World, e: Event, o: Store)
    requires Admissible(w, e) && forall k :: k in w.active ==> IsSessionKey(k)
    requires Listed(PartOf(w, o))
    ensures Listed(PartOf(Step(w, e), o)) <==> !LosesSight(PartOf(w, o), e)
  {
    StepSimulates(w, e, o);
    if StoreOf(e) == o {
      match e
      case EvCleanup(loadFails, fm) => CleanupListed(Typed(w.items, o), w.active, loadFails, fm);
      case _ => OtherListed(PartOf(w, o), e);
    }
  }

  lemma OtherListed(p: Part, e: Event)
    requires Applicable(p, e) && Listed(p) && !e.EvCleanup?
    requires e.EvDeleteEvery? ==> p.active == set k | k in e.order
    ensures Listed(PartStep(p, e))
  {
    match p
    case SessionPart(m, active) => SessionListed(m, active, e);
    case PreKeyPart(_, _, _) => PreKeyListed(p, e);
    case SignedPart(_, _, _) => SignedListed(p, e);
    case IdentityPart(_) =>
  }

  lemma PreKeyListed(p: Part, e: Event)
    requires p.PreKeyPart? && Applicable(p, e) && Listed(p)
    ensures Listed(PartStep(p, e))
  {
  }

  lemma SignedListed(p: Part, e: Event)
    requires p.SignedPart? && Applicable(p, e) && Listed(p)
    ensures Listed(PartStep(p, e))
  {
  }

  /** Over every run in which no cleanup fails to load a stored session, every stored session,
      prekey and signed prekey is listed in its index. */
  lemma {:induction false} RecordsStayListed(es: seq<Event>, o: Store)
    requires ValidRun(es) && forall n :: 0 <= n < |es| ==> !LosesSight(PartOf(Run(es[..n]), o), es[n])
    ensures Listed(PartOf(Run(es), o))
  {
    if es != [] {
      var init := es[..|es| - 1];
      forall n | 0 <= n < |init|
        ensures !LosesSight(PartOf(Run(init[..n]), o), init[n])
      {
        assert init[..n] == es[..n];
      }
      RecordsStayListed(init, o);
      StoresAreIndependent(init, o);
      assert !LosesSight(PartOf(Run(es[..|es| - 1]), o), es[|es| - 1]);
      StepKeepsListed(Run(init), es[|es| - 1], o);
    }
  }

  /** When no load fails, cleanup makes the index equal to the set of stored sessions: it drops exactly
      the keys without a record, which is what the method counts, and leaves every record of every store
      as it was; only the saved session list may change. */
  lemma CleanupIsExact(w: World, fm: Fate)
    requires forall k :: k in w.active ==> IsSessionKey(k)
    requires Listed(PartOf(w, Sessions))
    ensures
      var w' := Step(w, EvCleanup({}, fm));
      && (forall key :: IsSessionKey(key) ==> (key in w'.active <==> Tag(Session(key)) in w'.items))
      && w.active - w'.active == (set k | k in w.active && Tag(Session(k)) !in w.items)
      && |w.active - w'.active| == |w.active| - |w'.active|
      && SameBut(w.items, w'.items, Tag(SessionList))
  {
    var s, w' := SessionState(w.items, w.active), Step(w, EvCleanup({}, fm));
    CleanupActive(s, fm);
    CleanupRecords(s, fm);
    assert w'.active == Loadable(s, {});
    assert w.active == w'.active + (w.active - w'.active);
    forall key | IsSessionKey(key)
      ensures key in w'.active <==> Tag(Session(key)) in w'.items
    {
      ListedExactly(w, key);
    }
  }

  lemma ListedExactly(w: World, key: string)
    requires Listed(PartOf(w, Sessions)) && IsSessionKey(key)
    ensures Tag(Session(key)) in w.items ==> key in w.active
    ensures Tag(Session(key)) != Tag(SessionList)
  {
    NotList(key);
    TagsClashExactly(Session(key), SessionList);
    assert Session(key) in Typed(w.items, Sessions) <==> Tag(Session(key)) in w.items;
  }

  /** The same records but for one tag. */
  ghost predicate SameBut(before: Items, after: Items, tag: string) {
    forall t :: t != tag ==> ((t in after <==> t in before) && (t in after ==> after[t] == before[t]))
  }

  lemma CleanupActive(s: SessionState, fm: Fate)
    ensures Cleanup(s, {}, fm).active == Loadable(s, {})
  {
    var valid := Loadable(s, {});
    assert s.active == valid + (s.active - valid);
    assert |s.active| == |valid| + |s.active - valid|;
    if |s.active| - |valid| == 0 {
      assert s.active - valid == {};
    }
  }

  lemma CleanupRecords(s: SessionState, fm: Fate)
    ensures SameBut(s.items, Cleanup(s, {}, fm).items, Tag(SessionList))
  {
  }

  // ---------------------------------------------------------------- pinned identities

  ghost predicate Pinned(w: World, name: string, key: Data) {
    Tag(PeerIdentity(name)) in w.items && w.items[Tag(PeerIdentity(name))] == Blob(key)
  }

  /** What can release a pin: its explicit deletion, or an equal key being written again when the
      delete inside that write succeeds and the add fails. */
  predicate Releases(e: Event, name: string, key: Data) {
    e == EvDeleteIdentity(name, true) || e == EvStoreIdentity(name, key, true, Fate(true, false))
  }

  lemma PinnedInPart(w: World, name: string, key: Data)
    requires name != "pair"
    ensures Pinned(w, name, key) <==>
              && PeerIdentity(name) in Typed(w.items, Identities)
              && Typed(w.items, Identities)[PeerIdentity(name)] == Blob(key)
  {
  }

  /** A pinned identity survives a step of any store if and only if the step does not release it. */
  lemma PinKeptExactly(w: World, e: Event, name: string, key: Data)
    requires Admissible(w, e) && forall k :: k in w.active ==> IsSessionKey(k)
    requires name != "pair" && Pinned(w, name, key)
    ensures Pinned(Step(w, e), name, key) <==> !Releases(e, name, key)
  {
    PinnedInPart(w, name, key);
    PinnedInPart(Step(w, e), name, key);
    StepSimulates(w, e, Identities);
    if StoreOf(e) == Identities {
      PinInPart(Typed(w.items, Identities), e, name, key);
    }
  }

  lemma PinInPart(m: Entries, e: Event, name: string, key: Data)
    requires StoreOf(e) == Identities && PeerIdentity(name) in m && m[PeerIdentity(name)] == Blob(key)
    ensures
      var m' := IdentityStep(m, e).entries;
      PeerIdentity(name) in m' && m'[PeerIdentity(name)] == Blob(key) <==> !Releases(e, name, key)
  {
  }

  /** Over any run of all four stores a pin is unchanged until an event releases it; when writes
      succeed, only the explicit deletion does. */
  lemma {:induction false} PinStays(es: seq<Event>, n: nat, name: string, key: Data)
    requires ValidRun(es) && n <= |es| && name != "pair" && Pinned(Run(es[..n]), name, key)
    requires forall i :: n <= i < |es| ==> !Releases(es[i], name, key)
    ensures Pinned(Run(es), name, key)
  {
    if n == |es| {
      assert es[..n] == es;
    } else {
      var init := es[..|es| - 1];
      assert init[..n] == es[..n];
      PinStays(init, n, name, key);
      StoresAreIndependent(init, Identities);
      PinKeptExactly(Run(init), es[|es| - 1], name, key);
    }
  }

  /** The failure that releases a pin is real: after it any other key is accepted. */
  lemma LostPinIsReplaced(w: World, name: string, key: Data, other: Data)
    requires name != "pair" && Pinned(w, name, key) && forall k :: k in w.active ==> IsSessionKey(k)
    ensures
      var w1 := Step(w, EvStoreIdentity(name, key, true, Fate(true, false)));
      var w2 := Step(w1, EvStoreIdentity(name, other, true, FINE));
      !Pinned(w1, name, key) && Pinned(w2, name, other)
  {
  }
}
