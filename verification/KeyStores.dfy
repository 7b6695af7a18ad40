/** The four key stores over the shared keychain: what each operation does to the dictionary of
    tags and to the store's in-memory index, under arbitrary write and delete failures. */
module KeyStores {
  import opened Bytes
  import opened Decimal
  import opened Keychain
  import NT = NumberTheory

  // ---------------------------------------------------------------- sessions

  datatype SessionState = SessionState(items: Items, active: set<string>)

  function SaveSessions(s: SessionState, fm: Fate): SessionState {
    s.(items := Put(s.items, Tag(SessionList), Keys(s.active), fm).items)
  }

  function StoreSession(s: SessionState, key: string, data: Data, f: Fate, fm: Fate): SessionState {
    var w := Put(s.items, Tag(Session(key)), Blob(data), f);
    if w.ok then SaveSessions(SessionState(w.items, s.active + {key}), fm) else s.(items := w.items)
  }

  function DeleteSession(s: SessionState, key: string, ok: bool, fm: Fate): SessionState {
    if ok then SaveSessions(SessionState(Drop(s.items, Tag(Session(key)), true), s.active - {key}), fm) else s
  }

  function DropEach(items: Items, keys: seq<string>): Items {
    if keys == [] then items else Drop(DropEach(items, keys[..|keys| - 1]), Tag(Session(keys[|keys| - 1])), true)
  }

  /** Deletes the first n keys in enumeration order; with n short of all of them the next one threw. */
  function DeleteEverySession(s: SessionState, order: seq<string>, n: nat, fm: Fate): SessionState
    requires n <= |order|
  {
    var items := DropEach(s.items, order[..n]);
    if n == |order| then SaveSessions(SessionState(items, {}), fm) else s.(items := items)
  }

  /** The indexed keys whose record loads; a throwing load counts as missing. */
  function Loadable(s: SessionState, loadFails: set<string>): set<string> {
    set k | k in s.active && k !in loadFails && Tag(Session(k)) in s.items
  }

  function Cleanup(s: SessionState, loadFails: set<string>, fm: Fate): SessionState {
    var valid := Loadable(s, loadFails);
    if |s.active| - |valid| > 0 then SaveSessions(s.(active := valid), fm) else s
  }

  /** Progress of a scan that has done some of the active keys and kept the good ones. */
  ghost predicate Scanned<T>(active: set<T>, rest: set<T>, done: set<T>, good: set<T>, kept: set<T>, dropped: nat) {
    rest + done == active && rest !! done && kept == done * good && dropped == |done - good|
  }

  lemma ScanStep<T>(active: set<T>, rest: set<T>, done: set<T>, good: set<T>, kept: set<T>, dropped: nat, key: T)
    requires Scanned(active, rest, done, good, kept, dropped) && key in rest
    ensures key in good ==> Scanned(active, rest - {key}, done + {key}, good, kept + {key}, dropped)
    ensures key !in good ==> Scanned(active, rest - {key}, done + {key}, good, kept, dropped + 1)
  {
  }

  class SessionStore {
    const keychain: KeychainManager
    var activeSessions: set<string>

    constructor (keychain: KeychainManager)
      ensures this.keychain == keychain && activeSessions == {}
    {
      this.keychain := keychain;
      activeSessions := {};
    }

    ghost function View(): SessionState
      reads this, keychain
    {
      SessionState(keychain.items, activeSessions)
    }

    method SaveSessionMetadata(fm: Fate)
      modifies keychain
      ensures View() == SaveSessions(old(View()), fm)
    {
      var ignored := keychain.StoreData(Keys(activeSessions), Tag(SessionList), fm);
    }

    method Store(key: string, data: Data, f: Fate, fm: Fate) returns (ok: bool)
      modifies this, keychain
      ensures View() == StoreSession(old(View()), key, data, f, fm)
      ensures ok == Put(old(keychain.items), Tag(Session(key)), Blob(data), f).ok
    {
      var thrown := keychain.StoreData(Blob(data), Tag(Session(key)), f);
      if thrown {
        return false;
      }
      activeSessions := activeSessions + {key};
      SaveSessionMetadata(fm);
      ok := true;
    }

    method Delete(key: string, deleteOk: bool, fm: Fate) returns (ok: bool)
      modifies this, keychain
      ensures View() == DeleteSession(old(View()), key, deleteOk, fm) && ok == deleteOk
    {
      var thrown := keychain.DeleteData(Tag(Session(key)), deleteOk);
      if thrown {
        return false;
      }
      activeSessions := activeSessions - {key};
      SaveSessionMetadata(fm);
      ok := true;
    }

    method DeleteEvery(order: seq<string>, n: nat, fm: Fate) returns (thrown: bool)
      requires n <= |order|
      modifies this, keychain
      ensures View() == DeleteEverySession(old(View()), order, n, fm) && thrown == (n < |order|)
    {
      for i := 0 to n
        invariant keychain.items == DropEach(old(keychain.items), order[..i])
        invariant activeSessions == old(activeSessions)
      {
        var t := keychain.DeleteData(Tag(Session(order[i])), true);
        assert order[..i + 1][..i] == order[..i];
      }
      if n < |order| {
        return true;
      }
      activeSessions := {};
      SaveSessionMetadata(fm);
      thrown := false;
    }

    /** The loop of cleanupOrphanedSessions. */
    method Scan(loadFails: set<string>) returns (validSessions: set<string>, cleanedCount: nat)
      ensures validSessions == Loadable(View(), loadFails)
      ensures cleanedCount == |activeSessions - validSessions|
    {
      validSessions, cleanedCount := {}, 0;
      ghost var good := Loadable(View(), loadFails);
      ghost var done: set<string> := {};
      var rest := activeSessions;
      while rest != {}
        invariant Scanned(activeSessions, rest, done, good, validSessions, cleanedCount)
        decreases rest
      {
        var key :| key in rest;
        var loaded := keychain.LoadData(Tag(Session(key)), key !in loadFails);
        ScanStep(activeSessions, rest, done, good, validSessions, cleanedCount, key);
        if loaded.Found? {
          validSessions := validSessions + {key};
        } else {
          cleanedCount := cleanedCount + 1;
        }
        rest, done := rest - {key}, done + {key};
      }
    }

    method CleanupOrphanedSessions(loadFails: set<string>, fm: Fate) returns (cleanedCount: nat)
      modifies this, keychain
      ensures View() == Cleanup(old(View()), loadFails, fm)
      ensures cleanedCount == |old(activeSessions) - Loadable(old(View()), loadFails)|
    {
      var validSessions;
      validSessions, cleanedCount := Scan(loadFails);
      assert activeSessions == validSessions + (activeSessions - validSessions);
      assert |activeSessions| == |validSessions| + |activeSessions - validSessions|;
      if cleanedCount > 0 {
        activeSessions := validSessions;
        SaveSessionMetadata(fm);
      }
    }
  }

  // ---------------------------------------------------------------- one-time prekeys

  const MAX_PREKEY_ID: u32 := 16777215

  function Successor(id: u32): u32 {
    (id + 1) % MAX_PREKEY_ID
  }

  /** The id handed out after n others, the counter standing at start. */
  function IdAfter(start: u32, n: nat): u32 {
    if n == 0 then start else Successor(IdAfter(start, n - 1))
  }

  lemma {:induction false} IdAfterIs(start: u32, n: nat)
    requires start < 16777215
    ensures IdAfter(start, n) == (start + n) % 16777215
  {
    if n > 0 {
      IdAfterIs(start, n - 1);
      NextResidue(start + n - 1, 16777215);
    }
  }

  lemma NextResidue(a: int, n: int)
    requires 1 < n
    ensures (a % n + 1) % n == (a + 1) % n
  {
    var q, r := a / n, a % n;
    assert a == q * n + r;
    if r + 1 < n {
      QuotientUnique(a + 1, n, q, r + 1);
      QuotientUnique(r + 1, n, 0, r + 1);
    } else {
      assert (q + 1) * n == q * n + n;
      QuotientUnique(a + 1, n, q + 1, 0);
      QuotientUnique(n, n, 1, 0);
    }
  }

  /** The counter runs through all 16777215 ids before it hands one out again. */
  lemma IdsDistinct(start: u32, m: nat, n: nat)
    requires start < 16777215 && m < n
    ensures IdAfter(start, m) == IdAfter(start, n) <==> (n - m) % 16777215 == 0
  {
    IdAfterIs(start, m);
    IdAfterIs(start, n);
    SameResidue(start + m, start + n, 16777215);
  }

  lemma SameResidue(a: int, b: int, n: int)
    requires 0 < n
    ensures a % n == b % n <==> (b - a) % n == 0
  {
    NT.CongIffModEq(b, a, n);
    NT.CongIffModEq(b - a, 0, n);
    assert b - a - 0 == b - a && 0 % n == 0;
  }

  datatype PreKeyState = PreKeyState(items: Items, ids: set<u32>, next: u32)

  function SavePreKeys(s: PreKeyState, fc: Fate, fi: Fate): PreKeyState {
    var counted := Put(s.items, Tag(PreKeyCounter), Number(s.next), fc).items;
    s.(items := Put(counted, Tag(PreKeyIds), IdSet(s.ids), fi).items)
  }

  function StorePreKey(s: PreKeyState, id: u32, data: Data, f: Fate, fc: Fate, fi: Fate): PreKeyState {
    var w := Put(s.items, Tag(PreKey(id)), Blob(data), f);
    if w.ok then SavePreKeys(s.(items := w.items, ids := s.ids + {id}), fc, fi) else s.(items := w.items)
  }

  function RemovePreKey(s: PreKeyState, id: u32, ok: bool, fc: Fate, fi: Fate): PreKeyState {
    if ok then SavePreKeys(s.(items := Drop(s.items, Tag(PreKey(id)), true), ids := s.ids - {id}), fc, fi) else s
  }

  function NextPreKeyId(s: PreKeyState, fc: Fate, fi: Fate): PreKeyState {
    SavePreKeys(s.(next := Successor(s.next)), fc, fi)
  }

  class PreKeyStore {
    const keychain: KeychainManager
    var preKeyIds: set<u32>
    var nextPreKeyId: u32

    constructor (keychain: KeychainManager)
      ensures this.keychain == keychain && preKeyIds == {} && nextPreKeyId == 0
    {
      this.keychain := keychain;
      preKeyIds, nextPreKeyId := {}, 0;
    }

    ghost function View(): PreKeyState
      reads this, keychain
    {
      PreKeyState(keychain.items, preKeyIds, nextPreKeyId)
    }

    method SavePreKeyMetadata(fc: Fate, fi: Fate)
      modifies keychain
      ensures View() == SavePreKeys(old(View()), fc, fi)
    {
      var ignored := keychain.StoreData(Number(nextPreKeyId), Tag(PreKeyCounter), fc);
      ignored := keychain.StoreData(IdSet(preKeyIds), Tag(PreKeyIds), fi);
    }

    method Store(id: u32, data: Data, f: Fate, fc: Fate, fi: Fate) returns (ok: bool)
      modifies this, keychain
      ensures View() == StorePreKey(old(View()), id, data, f, fc, fi)
      ensures ok == Put(old(keychain.items), Tag(PreKey(id)), Blob(data), f).ok
    {
      var thrown := keychain.StoreData(Blob(data), Tag(PreKey(id)), f);
      if thrown {
        return false;
      }
      preKeyIds := preKeyIds + {id};
      SavePreKeyMetadata(fc, fi);
      ok := true;
    }

    method Remove(id: u32, deleteOk: bool, fc: Fate, fi: Fate) returns (ok: bool)
      modifies this, keychain
      ensures View() == RemovePreKey(old(View()), id, deleteOk, fc, fi) && ok == deleteOk
    {
      var thrown := keychain.DeleteData(Tag(PreKey(id)), deleteOk);
      if thrown {
        return false;
      }
      preKeyIds := preKeyIds - {id};
      SavePreKeyMetadata(fc, fi);
      ok := true;
    }

    method GetNextPreKeyId(fc: Fate, fi: Fate) returns (currentId: u32)
      modifies this, keychain
      ensures View() == NextPreKeyId(old(View()), fc, fi) && currentId == old(nextPreKeyId)
      ensures old(nextPreKeyId) < 16777214 ==> nextPreKeyId == old(nextPreKeyId) + 1
      ensures old(nextPreKeyId) == 16777214 ==> nextPreKeyId == 0
    {
      currentId := nextPreKeyId;
      nextPreKeyId := Successor(nextPreKeyId);
      SavePreKeyMetadata(fc, fi);
    }
  }

  // ---------------------------------------------------------------- signed prekeys

  datatype SignedState = SignedState(items: Items, ids: set<u32>, rotation: Option<int>)

  function SaveSigned(s: SignedState, fi: Fate, fr: Fate): SignedState {
    var listed := Put(s.items, Tag(SignedPreKeyIds), IdSet(s.ids), fi).items;
    s.(items := if s.rotation.None? then listed else Put(listed, Tag(LastRotation), Time(s.rotation.value), fr).items)
  }

  function StoreSigned(s: SignedState, id: u32, data: Data, f: Fate, fi: Fate, fr: Fate): SignedState {
    var w := Put(s.items, Tag(SignedPreKey(id)), Blob(data), f);
    if w.ok then SaveSigned(s.(items := w.items, ids := s.ids + {id}), fi, fr) else s.(items := w.items)
  }

  function RemoveSigned(s: SignedState, id: u32, ok: bool, fi: Fate, fr: Fate): SignedState {
    if ok then SaveSigned(s.(items := Drop(s.items, Tag(SignedPreKey(id)), true), ids := s.ids - {id}), fi, fr) else s
  }

  function UpdateRotation(s: SignedState, t: int, fi: Fate, fr: Fate): SignedState {
    SaveSigned(s.(rotation := Some(t)), fi, fr)
  }

  // ---------------------------------------------------------------- identities

  /** Pins on first use; a different key is refused; an equal key is written again. */
  function StoreIdentity(items: Items, name: string, data: Data, loadOk: bool, f: Fate): Written {
    match Load(items, Tag(PeerIdentity(name)), loadOk)
    case LoadFailed => Written(items, false)
    case Missing => Put(items, Tag(PeerIdentity(name)), Blob(data), f)
    case Found(r) =>
      if r != Blob(data) then Written(items, false)
      else Put(items, Tag(PeerIdentity(name)), Blob(data), f)
  }

  class IdentityStore {
    const keychain: KeychainManager

    constructor (keychain: KeychainManager)
      ensures this.keychain == keychain
    {
      this.keychain := keychain;
    }

    method Store(name: string, identityKey: Data, loadOk: bool, f: Fate) returns (ok: bool)
      modifies keychain
      ensures Written(keychain.items, ok) == StoreIdentity(old(keychain.items), name, identityKey, loadOk, f)
    {
      var existing := keychain.LoadData(Tag(PeerIdentity(name)), loadOk);
      if existing.LoadFailed? {
        return false;
      }
      if existing.Found? && existing.r != Blob(identityKey) {
        return false;
      }
      var thrown := keychain.StoreData(Blob(identityKey), Tag(PeerIdentity(name)), f);
      ok := !thrown;
    }

    method Delete(name: string, deleteOk: bool) returns (thrown: bool)
      modifies keychain
      ensures keychain.items == Drop(old(keychain.items), Tag(PeerIdentity(name)), deleteOk) && thrown == !deleteOk
    {
      thrown := keychain.DeleteData(Tag(PeerIdentity(name)), deleteOk);
    }

    /** Trusted on first use; a load failure also reads as a first use. */
    method IsTrusted(name: string, identityKey: Data, loadOk: bool) returns (trusted: bool)
      ensures trusted <==> !loadOk || Tag(PeerIdentity(name)) !in keychain.items
                           || keychain.items[Tag(PeerIdentity(name))] == Blob(identityKey)
    {
      var existing := keychain.LoadData(Tag(PeerIdentity(name)), loadOk);
      if !existing.Found? {
        return true;
      }
      if !existing.r.Blob? {
        return false;
      }
      trusted := ConstantTimeEquals(existing.r.data, identityKey);
    }
  }

  /** Accumulates all differences before deciding. */
  method ConstantTimeEquals(a: Data, b: Data) returns (equal: bool)
    ensures equal <==> a == b
  {
    if |a| != |b| {
      return false;
    }
    var result: bv8 := 0;
    for i := 0 to |a|
      invariant result == 0 <==> a[..i] == b[..i]
    {
      result := result | (a[i] ^ b[i]);
      assert a[..i + 1] == a[..i] + [a[i]] && b[..i + 1] == b[..i] + [b[i]];
    }
    assert a[..|a|] == a && b[..|b|] == b;
    equal := result == 0;
  }
}
