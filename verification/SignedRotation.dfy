/** Rotation of signed prekeys: the id arithmetic, the cleanup that keeps the newest five, and what
    is held after any number of rotations. */
module SignedRotation {
  import opened Bytes
  import opened Decimal
  import opened Keychain
  import opened KeyStores
  import SK = SessionKeys

  const KEYS_TO_KEEP := 5

  // ---------------------------------------------------------------- ids

  ghost function Larger(ids: set<u32>, id: u32): set<u32> {
    set j | j in ids && j > id
  }

  /** The ids that at least five others exceed. */
  ghost function Oldest(ids: set<u32>): set<u32> {
    set i | i in ids && |Larger(ids, i)| >= KEYS_TO_KEEP
  }

  ghost predicate IsMax(ids: set<u32>, m: u32) {
    m in ids && forall j :: j in ids ==> j <= m
  }

  ghost function MaxOf(ids: set<u32>): (m: u32)
    requires ids != {}
    ensures IsMax(ids, m)
  {
    var x :| x in ids;
    if ids == {x} then x
    else
      var y := MaxOf(ids - {x});
      assert forall j :: j in ids ==> j == x || j in ids - {x};
      if x > y then x else y
  }

  /** One more than every id held; 0 when none is. */
  ghost function NextOf(ids: set<u32>): int {
    if ids == {} then 0 else MaxOf(ids) + 1
  }

  ghost predicate StrictlyAscending(s: seq<u32>) {
    forall i, j :: 0 <= i < j < |s| ==> s[i] < s[j]
  }

  ghost function Members(s: seq<u32>): set<u32> {
    set x | x in s
  }

  lemma {:induction false} AscendingSet(s: seq<u32>)
    requires StrictlyAscending(s)
    ensures |Members(s)| == |s|
  {
    if s != [] {
      var t, x := s[..|s| - 1], s[|s| - 1];
      AscendingSet(t);
      assert s == t + [x];
      assert x !in t;
      assert Members(s) == Members(t) + {x};
    }
  }

  /** In an ascending enumeration of ids the element at position i is exceeded by those behind it. */
  lemma LargerInOrder(ids: set<u32>, s: seq<u32>, i: nat)
    requires StrictlyAscending(s) && (forall x :: x in ids <==> x in s) && i < |s|
    ensures |Larger(ids, s[i])| == |s| - 1 - i
  {
    var tail := s[i + 1..];
    AscendingSet(tail);
    assert Larger(ids, s[i]) == Members(tail) by {
      forall x | x in Larger(ids, s[i])
        ensures x in tail
      {
        var j :| 0 <= j < |s| && s[j] == x;
        assert tail[j - i - 1] == x;
      }
    }
  }

  /** So dropping the last five leaves exactly the oldest. */
  lemma OldestInOrder(ids: set<u32>, s: seq<u32>)
    requires StrictlyAscending(s) && (forall x :: x in ids <==> x in s)
    ensures |ids| == |s|
    ensures |s| > KEYS_TO_KEEP ==> forall x :: x in Oldest(ids) <==> x in s[..|s| - KEYS_TO_KEEP]
    ensures |s| <= KEYS_TO_KEEP ==> Oldest(ids) == {}
  {
    AscendingSet(s);
    assert ids == Members(s);
    forall i | 0 <= i < |s|
      ensures s[i] in Oldest(ids) <==> i < |s| - KEYS_TO_KEEP
    {
      LargerInOrder(ids, s, i);
    }
    if |s| > KEYS_TO_KEEP {
      var front := s[..|s| - KEYS_TO_KEEP];
      forall x | x in Oldest(ids)
        ensures x in front
      {
        var i :| 0 <= i < |s| && s[i] == x;
        assert front[i] == x;
      }
    }
  }

  // ---------------------------------------------------------------- the store

  /** The signed prekeys that can be loaded are exactly the ones listed. */
  ghost predicate Backed(s: SignedState) {
    forall id: u32 :: Tag(SignedPreKey(id)) in s.items <==> id in s.ids
  }

  /** The record of a signed prekey is the same in both states, or missing in both. */
  ghost predicate SameRecord(s: SignedState, s': SignedState, id: u32) {
    var tag := Tag(SignedPreKey(id));
    (tag in s.items <==> tag in s'.items) && (tag in s.items ==> s.items[tag] == s'.items[tag])
  }

  ghost predicate HasRecord(s: SignedState, id: u32, data: Data) {
    Tag(SignedPreKey(id)) in s.items && s.items[Tag(SignedPreKey(id))] == Blob(data)
  }

  /** Saving metadata touches no signed prekey record. */
  lemma SaveKeepsRecords(s: SignedState, fi: Fate, fr: Fate, id: u32)
    ensures SameRecord(s, SaveSigned(s, fi, fr), id)
  {
    TagsApart(SignedPreKey(id));
    assert Tag(SignedPreKeyIds) != Tag(SignedPreKey(id)) && Tag(LastRotation) != Tag(SignedPreKey(id));
  }

  /** Storing writes the one record. */
  lemma StoreSignedRecords(s: SignedState, id: u32, data: Data, f: Fate, fi: Fate, fr: Fate, j: u32)
    requires Put(s.items, Tag(SignedPreKey(id)), Blob(data), f).ok
    ensures
      var s' := StoreSigned(s, id, data, f, fi, fr);
      s'.ids == s.ids + {id} && if j == id then HasRecord(s', j, data) else SameRecord(s, s', j)
  {
    var w := Put(s.items, Tag(SignedPreKey(id)), Blob(data), f);
    SaveKeepsRecords(s.(items := w.items, ids := s.ids + {id}), fi, fr, j);
    TagsClashExactly(SignedPreKey(j), SignedPreKey(id));
  }

  /** Removing takes out the one record. */
  lemma RemoveSignedRecords(s: SignedState, id: u32, fi: Fate, fr: Fate, j: u32)
    ensures
      var s' := RemoveSigned(s, id, true, fi, fr);
      s'.ids == s.ids - {id} && if j == id then Tag(SignedPreKey(j)) !in s'.items else SameRecord(s, s', j)
  {
    var items := Drop(s.items, Tag(SignedPreKey(id)), true);
    SaveKeepsRecords(s.(items := items, ids := s.ids - {id}), fi, fr, j);
    TagsClashExactly(SignedPreKey(j), SignedPreKey(id));
  }

  class SignedPreKeyStore {
    const keychain: KeychainManager
    var signedPreKeyIds: set<u32>
    var lastRotationTime: Option<int>

    constructor (keychain: KeychainManager)
      ensures this.keychain == keychain && signedPreKeyIds == {} && lastRotationTime == None
    {
      this.keychain := keychain;
      signedPreKeyIds, lastRotationTime := {}, None;
    }

    ghost function View(): SignedState
      reads this, keychain
    {
      SignedState(keychain.items, signedPreKeyIds, lastRotationTime)
    }

    method SaveMetadata(fi: Fate, fr: Fate)
      modifies keychain
      ensures View() == SaveSigned(old(View()), fi, fr)
    {
      var ignored := keychain.StoreData(IdSet(signedPreKeyIds), Tag(SignedPreKeyIds), fi);
      if lastRotationTime.Some? {
        ignored := keychain.StoreData(Time(lastRotationTime.value), Tag(LastRotation), fr);
      }
    }

    method Store(id: u32, data: Data, f: Fate, fi: Fate, fr: Fate) returns (ok: bool)
      modifies this, keychain
      ensures View() == StoreSigned(old(View()), id, data, f, fi, fr)
      ensures ok == Put(old(keychain.items), Tag(SignedPreKey(id)), Blob(data), f).ok
    {
      var thrown := keychain.StoreData(Blob(data), Tag(SignedPreKey(id)), f);
      if thrown {
        return false;
      }
      signedPreKeyIds := signedPreKeyIds + {id};
      SaveMetadata(fi, fr);
      ok := true;
    }

    method Remove(id: u32, deleteOk: bool, fi: Fate, fr: Fate) returns (ok: bool)
      modifies this, keychain
      ensures View() == RemoveSigned(old(View()), id, deleteOk, fi, fr) && ok == deleteOk
    {
      var thrown := keychain.DeleteData(Tag(SignedPreKey(id)), deleteOk);
      if thrown {
        return false;
      }
      signedPreKeyIds := signedPreKeyIds - {id};
      SaveMetadata(fi, fr);
      ok := true;
    }

    method UpdateRotationTime(t: int, fi: Fate, fr: Fate)
      modifies this, keychain
      ensures View() == UpdateRotation(old(View()), t, fi, fr)
    {
      lastRotationTime := Some(t);
      SaveMetadata(fi, fr);
    }

    /** The largest id plus one; None is the arithmetic trap at the top of the range. */
    method GetNextSignedPreKeyId() returns (next: Option<u32>)
      ensures next.None? <==> U32_LIMIT - 1 in signedPreKeyIds
      ensures next.Some? ==> next.value == NextOf(signedPreKeyIds)
      ensures signedPreKeyIds == {} ==> next == Some(0)
      ensures next.Some? && signedPreKeyIds != {} ==>
                next.value - 1 in signedPreKeyIds && forall j :: j in signedPreKeyIds ==> j < next.value
    {
      if signedPreKeyIds == {} {
        return Some(0);
      }
      var m :| m in signedPreKeyIds;
      var rest := signedPreKeyIds - {m};
      while rest != {}
        invariant m in signedPreKeyIds && rest <= signedPreKeyIds
        invariant forall j :: j in signedPreKeyIds ==> j in rest || j <= m
        decreases rest
      {
        var x :| x in rest;
        if x > m {
          m := x;
        }
        rest := rest - {x};
      }
      assert IsMax(signedPreKeyIds, m);
      return if m == U32_LIMIT - 1 then None else Some(m + 1);
    }

    /** signedPreKeyIds.sorted() */
    method Sorted() returns (s: seq<u32>)
      ensures StrictlyAscending(s) && forall x :: x in signedPreKeyIds <==> x in s
    {
      s := [];
      var rest := signedPreKeyIds;
      while rest != {}
        invariant rest <= signedPreKeyIds && StrictlyAscending(s)
        invariant forall x :: x in signedPreKeyIds <==> x in rest || x in s
        invariant forall x :: x in s ==> x !in rest
        decreases rest
      {
        var x :| x in rest;
        InsertNew(s, x);
        s := SK.InsertSorted(s, x);
        rest := rest - {x};
      }
    }

    /** `fails` are the ids whose deletion throws. */
    method CleanupOldSignedPreKeys(fails: set<u32>, fi: nat -> Fate, fr: nat -> Fate) returns (removedCount: nat)
      modifies this, keychain
      ensures Cleared(old(View()), View(), Oldest(old(signedPreKeyIds)) - fails, removedCount)
    {
      removedCount := 0;
      var sortedIds := Sorted();
      OldestInOrder(signedPreKeyIds, sortedIds);
      if |sortedIds| <= KEYS_TO_KEEP {
        ClearedStart(View());
        assert {} - fails == {};
        return;
      }
      var toRemove := sortedIds[..|sortedIds| - KEYS_TO_KEEP];
      ghost var oldest := Oldest(signedPreKeyIds);
      assert oldest == Members(toRemove);
      removedCount := RemoveEach(toRemove, fails, fi, fr);
    }

    method RemoveEach(toRemove: seq<u32>, fails: set<u32>, fi: nat -> Fate, fr: nat -> Fate) returns (removedCount: nat)
      requires StrictlyAscending(toRemove)
      modifies this, keychain
      ensures Cleared(old(View()), View(), Members(toRemove) - fails, removedCount)
    {
      removedCount := 0;
      ghost var s0 := View();
      ClearedStart(s0);
      assert Members(toRemove[..0]) - fails == {};
      for i := 0 to |toRemove|
        invariant Cleared(s0, View(), Members(toRemove[..i]) - fails, removedCount)
      {
        var id := toRemove[i];
        var deleteOk := id !in fails;
        GoneOneMore(toRemove, i, fails);
        ClearedStep(s0, View(), Members(toRemove[..i]) - fails, id, deleteOk, removedCount, fi(i), fr(i));
        var removed := Remove(id, deleteOk, fi(i), fr(i));
        if removed {
          removedCount := removedCount + 1;
        }
      }
      assert toRemove[..|toRemove|] == toRemove;
    }
  }

  /** s is s0 with the given ids and their records removed, `count` of them, and no other record touched. */
  ghost predicate Cleared(s0: SignedState, s: SignedState, gone: set<u32>, count: nat) {
    && s.ids == s0.ids - gone && s.rotation == s0.rotation && count == |gone|
    && (forall id: u32 :: id !in gone ==> SameRecord(s0, s, id))
    && (forall id: u32 :: id in gone ==> Tag(SignedPreKey(id)) !in s.items)
  }

  lemma ClearedStart(s0: SignedState)
    ensures Cleared(s0, s0, {}, 0)
  {
  }

  /** One more element of the list, unless its deletion throws. */
  lemma GoneOneMore(toRemove: seq<u32>, i: nat, fails: set<u32>)
    requires StrictlyAscending(toRemove) && i < |toRemove|
    ensures
      var gone, gone' := Members(toRemove[..i]) - fails, Members(toRemove[..i + 1]) - fails;
      && toRemove[i] !in gone
      && gone' == if toRemove[i] in fails then gone else gone + {toRemove[i]}
  {
  }

  lemma ClearedStep(s0: SignedState, s: SignedState, gone: set<u32>, id: u32, ok: bool, count: nat, fi: Fate, fr: Fate)
    requires Cleared(s0, s, gone, count) && id !in gone
    ensures ok ==> Cleared(s0, RemoveSigned(s, id, true, fi, fr), gone + {id}, count + 1)
    ensures !ok ==> Cleared(s0, RemoveSigned(s, id, false, fi, fr), gone, count)
  {
    if ok {
      var s' := RemoveSigned(s, id, true, fi, fr);
      forall j: u32
        ensures j !in gone + {id} ==> SameRecord(s0, s', j)
        ensures j in gone + {id} ==> Tag(SignedPreKey(j)) !in s'.items
      {
        RemoveSignedRecords(s, id, fi, fr, j);
        assert j !in gone ==> SameRecord(s0, s, j);
      }
    }
  }

  lemma InsertNew(s: seq<u32>, x: u32)
    requires StrictlyAscending(s) && x !in s
    ensures StrictlyAscending(SK.InsertSorted(s, x)) && forall y :: y in SK.InsertSorted(s, x) <==> y == x || y in s
  {
    SK.InsertSortedSpec(s, x);
    var r := SK.InsertSorted(s, x);
    assert forall y :: y in r <==> y in multiset(r);
    assert forall y :: y in s <==> y in multiset(s);
    forall i, j | 0 <= i < j < |r|
      ensures r[i] < r[j]
    {
      if r[i] == r[j] {
        TwiceInMultiset(r, i, j);
        StrictOnce(s, r[i]);
      }
    }
  }

  lemma TwiceInMultiset(r: seq<u32>, i: nat, j: nat)
    requires i < j < |r| && r[i] == r[j]
    ensures multiset(r)[r[i]] >= 2
  {
    assert r == r[..j] + [r[j]] + r[j + 1..];
    assert r[i] in r[..j];
  }

  lemma {:induction false} StrictOnce(s: seq<u32>, x: u32)
    requires StrictlyAscending(s)
    ensures multiset(s)[x] <= 1
  {
    if s != [] {
      assert s == [s[0]] + s[1..];
      StrictOnce(s[1..], x);
      if x == s[0] {
        assert x !in s[1..];
      }
    }
  }

  // ---------------------------------------------------------------- rotation

  datatype RotationResult = Rotated | MissingIdentityKey | InvalidKeyData | IdOverflow | StorageFailure

  /** The effect of a rotation that stored its key: the next id is added with the given record and,
      except for the ids whose deletion throws, only the newest five are kept, with their records; the
      records of the others are gone. */
  ghost predicate RotatesTo(s: SignedState, s': SignedState, data: Data, fails: set<u32>) {
    && NextOf(s.ids) < U32_LIMIT
    && s'.ids == (s.ids + {NextOf(s.ids)}) - (Oldest(s.ids + {NextOf(s.ids)}) - fails)
    && HasRecord(s', NextOf(s.ids), data)
    && (forall id: u32 :: id in s'.ids && id != NextOf(s.ids) ==> SameRecord(s, s', id))
    && (Backed(s) ==> Backed(s'))
  }

  /** Stores the new key, records the time and cleans up. */
  method StoreAndClean(store: SignedPreKeyStore, id: u32, data: Data, now: int, f: Fate,
                       fails: set<u32>, fi: nat -> Fate, fr: nat -> Fate) returns (stored: bool)
    requires id == NextOf(store.signedPreKeyIds)
    modifies store, store.keychain
    ensures stored == Put(old(store.keychain.items), Tag(SignedPreKey(id)), Blob(data), f).ok
    ensures stored ==> store.lastRotationTime == Some(now) && RotatesTo(old(store.View()), store.View(), data, fails)
    ensures !stored ==> Undone(old(store.View()), store.View())
  {
    ghost var s0 := store.View();
    stored := store.Store(id, data, f, fi(0), fr(0));
    if !stored {
      return;
    }
    store.UpdateRotationTime(now, fi(1), fr(1));
    var cleaned := store.CleanupOldSignedPreKeys(fails, fi, fr);
    RotationEffect(s0, id, data, now, f, fails, fi, fr, store.View(), cleaned);
  }

  /** A rotation whose key could not be stored: ids and time stay, and where no record was stored under
      the next id, nothing changes at all. */
  ghost predicate Undone(s: SignedState, s': SignedState) {
    && s'.ids == s.ids && s'.rotation == s.rotation
    && (Backed(s) ==> s' == s)
  }

  /** rotateSignedPreKey; `identity` says whether the identity key pair loads and parses. */
  method RotateSignedPreKey(store: SignedPreKeyStore, identity: Option<bool>, data: Data, now: int, f: Fate,
                            fails: set<u32>, fi: nat -> Fate, fr: nat -> Fate) returns (r: RotationResult)
    modifies store, store.keychain
    ensures r.MissingIdentityKey? <==> identity.None?
    ensures r.InvalidKeyData? <==> identity == Some(false)
    ensures r.IdOverflow? <==> identity == Some(true) && U32_LIMIT - 1 in old(store.signedPreKeyIds)
    ensures r.MissingIdentityKey? || r.InvalidKeyData? || r.IdOverflow? ==> store.View() == old(store.View())
    ensures r.Rotated? <==>
              && identity == Some(true) && NextOf(old(store.signedPreKeyIds)) < U32_LIMIT
              && Put(old(store.keychain.items), Tag(SignedPreKey(NextOf(old(store.signedPreKeyIds)))), Blob(data), f).ok
    ensures r.StorageFailure? ==> f != FINE && Undone(old(store.View()), store.View())
    ensures r.Rotated? ==>
              store.lastRotationTime == Some(now) && RotatesTo(old(store.View()), store.View(), data, fails)
  {
    if identity.None? {
      return MissingIdentityKey;
    }
    if !identity.value {
      return InvalidKeyData;
    }
    var next := store.GetNextSignedPreKeyId();
    if next.None? {
      return IdOverflow;
    }
    var stored := StoreAndClean(store, next.value, data, now, f, fails, fi, fr);
    r := if stored then Rotated else StorageFailure;
  }

  /** Initial key generation on an empty store leaves the single id 0 with its record. */
  lemma InitialState(s: SignedState, data: Data, now: int, fi: nat -> Fate, fr: nat -> Fate)
    requires s.ids == {} && Backed(s)
    ensures
      var s' := UpdateRotation(StoreSigned(s, 0, data, FINE, fi(0), fr(0)), now, fi(1), fr(1));
      s'.ids == {0} && Backed(s') && HasRecord(s', 0, data) && s'.rotation == Some(now)
  {
    var s1 := StoreSigned(s, 0, data, FINE, fi(0), fr(0));
    forall id: u32
      ensures Tag(SignedPreKey(id)) in UpdateRotation(s1, now, fi(1), fr(1)).items <==> id == 0
      ensures id == 0 ==> HasRecord(UpdateRotation(s1, now, fi(1), fr(1)), id, data)
    {
      StoreSignedRecords(s, 0, data, FINE, fi(0), fr(0), id);
      SaveKeepsRecords(s1.(rotation := Some(now)), fi(1), fr(1), id);
    }
  }

  lemma NextIsNew(ids: set<u32>, id: u32)
    requires id == NextOf(ids)
    ensures id !in ids && Larger(ids + {id}, id) == {} && id !in Oldest(ids + {id})
  {
    assert Larger(ids + {id}, id) == {};
  }

  /** Storing and setting the time: one record more. */
  lemma StoredWithTime(s0: SignedState, id: u32, data: Data, now: int, f: Fate, fi: nat -> Fate, fr: nat -> Fate,
                       j: u32)
    requires Put(s0.items, Tag(SignedPreKey(id)), Blob(data), f).ok
    ensures
      var s2 := UpdateRotation(StoreSigned(s0, id, data, f, fi(0), fr(0)), now, fi(1), fr(1));
      s2.ids == s0.ids + {id} && if j == id then HasRecord(s2, j, data) else SameRecord(s0, s2, j)
  {
    var s1 := StoreSigned(s0, id, data, f, fi(0), fr(0));
    StoreSignedRecords(s0, id, data, f, fi(0), fr(0), j);
    SaveKeepsRecords(s1.(rotation := Some(now)), fi(1), fr(1), j);
  }

  lemma RotationEffect(s0: SignedState, id: u32, data: Data, now: int, f: Fate, fails: set<u32>,
                       fi: nat -> Fate, fr: nat -> Fate, s3: SignedState, cleaned: nat)
    requires id == NextOf(s0.ids) && Put(s0.items, Tag(SignedPreKey(id)), Blob(data), f).ok
    requires
      var s1 := StoreSigned(s0, id, data, f, fi(0), fr(0));
      var s2 := UpdateRotation(s1, now, fi(1), fr(1));
      Cleared(s2, s3, Oldest(s2.ids) - fails, cleaned)
    ensures RotatesTo(s0, s3, data, fails)
  {
    var s2 := UpdateRotation(StoreSigned(s0, id, data, f, fi(0), fr(0)), now, fi(1), fr(1));
    forall j: u32
      ensures s2.ids == s0.ids + {id} && if j == id then HasRecord(s2, j, data) else SameRecord(s0, s2, j)
    {
      StoredWithTime(s0, id, data, now, f, fi, fr, j);
    }
    ClearedAfter(s0, id, data, s2, fails, s3, cleaned);
  }

  lemma ClearedAfter(s0: SignedState, id: u32, data: Data, s2: SignedState, fails: set<u32>, s3: SignedState,
                     cleaned: nat)
    requires id == NextOf(s0.ids) && s2.ids == s0.ids + {id} && Cleared(s2, s3, Oldest(s2.ids) - fails, cleaned)
    requires HasRecord(s2, id, data) && forall j: u32 :: j != id ==> SameRecord(s0, s2, j)
    ensures RotatesTo(s0, s3, data, fails)
  {
    NextIsNew(s0.ids, id);
    var gone := Oldest(s2.ids) - fails;
    forall j: u32 | j in s3.ids && j != id
      ensures SameRecord(s0, s3, j)
    {
      assert SameRecord(s0, s2, j) && SameRecord(s2, s3, j);
    }
    assert SameRecord(s2, s3, id);
    if Backed(s0) {
      forall j: u32
        ensures Tag(SignedPreKey(j)) in s3.items <==> j in s3.ids
      {
        if j !in gone {
          assert SameRecord(s2, s3, j);
          assert j != id ==> SameRecord(s0, s2, j);
        }
      }
    }
  }

  /** The ids from max(0, k-4) to k. */
  ghost predicate IsWindow(ids: set<u32>, k: int) {
    forall id: u32 :: id in ids <==> k - 4 <= id <= k
  }

  lemma WindowNext(ids: set<u32>, k: u32)
    requires IsWindow(ids, k)
    ensures NextOf(ids) == k + 1
  {
    assert k in ids;
  }

  lemma WindowStep(ids: set<u32>, k: nat, id: u32)
    requires IsWindow(ids, k) && id == k + 1
    ensures IsWindow((ids + {id}) - (Oldest(ids + {id}) - {}), k + 1)
  {
    var all := ids + {id};
    var low := if k < 4 then 0 else k - 4;
    UpToSpec(low, k + 1);
    assert forall x: u32 :: x in all <==> x in UpTo(low, k + 1);
    OldestOfWindow(all, low, k + 1);
  }

  lemma OldestOfWindow(all: set<u32>, low: nat, high: nat)
    requires low <= high < U32_LIMIT && high - low <= 5 && forall x: u32 :: x in all <==> x in UpTo(low, high)
    ensures forall x: u32 :: x in Oldest(all) <==> high - low == 5 && x == low
  {
    var s := UpTo(low, high);
    UpToSpec(low, high);
    OldestInOrder(all, s);
    if high - low == 5 {
      assert s[..1] == [s[0]];
    }
  }

  ghost function UpTo(low: nat, high: nat): seq<u32>
    requires low <= high < U32_LIMIT
    decreases high - low
  {
    if low == high then [low] else [low] + UpTo(low + 1, high)
  }

  lemma {:induction false} UpToSpec(low: nat, high: nat)
    requires low <= high < U32_LIMIT
    ensures |UpTo(low, high)| == high - low + 1 && UpTo(low, high)[0] == low
    ensures StrictlyAscending(UpTo(low, high)) && forall x: u32 :: x in UpTo(low, high) <==> low <= x <= high
    decreases high - low
  {
    if low < high {
      UpToSpec(low + 1, high);
    }
  }

  /** A run of rotations from the state after initial key generation. datas[i] is the record made for
      rotation i, the one for i = 0 by initial generation; fails[i] are the ids whose deletion throws in
      the cleanup of the rotation from state i. */
  ghost predicate Rotations(states: seq<SignedState>, datas: seq<Data>, fails: seq<set<u32>>) {
    && 1 <= |states| <= U32_LIMIT && |fails| == |states| == |datas|
    && states[0].ids == {0} && Backed(states[0]) && HasRecord(states[0], 0, datas[0])
    && forall i: nat :: i < |states| - 1 ==> RotatesAt(states, datas, fails, i)
  }

  ghost predicate RotatesAt(states: seq<SignedState>, datas: seq<Data>, fails: seq<set<u32>>, i: nat) {
    && i + 1 < |states| && i < |fails| && i + 1 < |datas|
    && RotatesTo(states[i], states[i + 1], datas[i + 1], fails[i])
  }

  lemma RotationAt(states: seq<SignedState>, datas: seq<Data>, fails: seq<set<u32>>, i: nat)
    requires Rotations(states, datas, fails) && i < |states| - 1
    ensures RotatesTo(states[i], states[i + 1], datas[i + 1], fails[i])
  {
    assert RotatesAt(states, datas, fails, i);
  }

  /** What can be loaded is exactly the ids held, each with the record made for its rotation. */
  ghost predicate LoadsOwn(s: SignedState, datas: seq<Data>) {
    Backed(s) && forall id: u32 :: id in s.ids ==> id < |datas| && HasRecord(s, id, datas[id])
  }

  lemma StillLoadsOwn(s: SignedState, s': SignedState, datas: seq<Data>, fails: set<u32>, k: nat)
    requires k + 1 < |datas| && RotatesTo(s, s', datas[k + 1], fails) && NextOf(s.ids) == k + 1 && LoadsOwn(s, datas)
    ensures LoadsOwn(s', datas)
  {
    forall id: u32 | id in s'.ids
      ensures id < |datas| && HasRecord(s', id, datas[id])
    {
      if id != k + 1 {
        assert id in s.ids && SameRecord(s, s', id);
      }
    }
  }

  lemma WindowRotation(s: SignedState, s': SignedState, data: Data, k: nat)
    requires RotatesTo(s, s', data, {}) && IsWindow(s.ids, k) && k + 1 < U32_LIMIT
    ensures IsWindow(s'.ids, k + 1) && NextOf(s.ids) == k + 1
  {
    WindowNext(s.ids, k);
    WindowStep(s.ids, k, k + 1);
  }

  /** After k rotations the ids are exactly max(0, k-4) through k, each loads with its own record, and the
      last id added was k. */
  ghost predicate WindowAfter(states: seq<SignedState>, datas: seq<Data>, k: nat) {
    && k < |states| && IsWindow(states[k].ids, k) && LoadsOwn(states[k], datas)
    && (k > 0 ==> NextOf(states[k - 1].ids) == k)
  }

  lemma WindowStart(states: seq<SignedState>, datas: seq<Data>, fails: seq<set<u32>>)
    requires Rotations(states, datas, fails)
    ensures WindowAfter(states, datas, 0)
  {
  }

  lemma WindowOneMore(states: seq<SignedState>, datas: seq<Data>, fails: seq<set<u32>>, k: nat)
    requires Rotations(states, datas, fails) && k + 1 < |states| && fails[k] == {} && WindowAfter(states, datas, k)
    ensures WindowAfter(states, datas, k + 1)
  {
    RotationAt(states, datas, fails, k);
    WindowRotation(states[k], states[k + 1], datas[k + 1], k);
    StillLoadsOwn(states[k], states[k + 1], datas, fails[k], k);
  }

  /** After initial key generation and any k rotations with a working keychain the ids held are exactly
      max(0, k-4) through k, and each loads the record made for its rotation; so the id added by rotation
      k is k, larger than any id ever used before. */
  lemma {:induction false} RotationWindow(states: seq<SignedState>, datas: seq<Data>, fails: seq<set<u32>>, k: nat)
    requires Rotations(states, datas, fails) && k < |states| && forall i :: 0 <= i < |fails| ==> fails[i] == {}
    ensures WindowAfter(states, datas, k)
  {
    if k == 0 {
      WindowStart(states, datas, fails);
    } else {
      RotationWindow(states, datas, fails, k - 1);
      WindowOneMore(states, datas, fails, k - 1);
    }
  }

  /** The ids reach from 0 to k, and the newest five are among them. */
  ghost predicate HoldsNewest(ids: set<u32>, k: int) {
    && (forall id: u32 :: id in ids ==> id <= k)
    && (forall id: u32 :: k - 4 <= id <= k ==> id in ids)
  }

  lemma NewestNotOldest(all: set<u32>, k: u32, id: u32)
    requires (forall j :: j in all ==> j <= k) && k - 4 <= id
    ensures id !in Oldest(all)
  {
    var s := UpTo(id, if id < k then k else id);
    UpToSpec(id, if id < k then k else id);
    AscendingSet(s);
    SubsetIsSmaller(Larger(all, id), Members(s) - {id});
  }

  lemma {:induction false} SubsetIsSmaller(a: set<u32>, b: set<u32>)
    requires a <= b
    ensures |a| <= |b|
  {
    assert b == a + (b - a) && |b| == |a| + |b - a|;
  }

  lemma NewestRotation(s: SignedState, s': SignedState, data: Data, fails: set<u32>, k: nat)
    requires RotatesTo(s, s', data, fails) && HoldsNewest(s.ids, k) && k + 1 < U32_LIMIT
    ensures HoldsNewest(s'.ids, k + 1) && NextOf(s.ids) == k + 1
  {
    var last: u32, next: u32 := k, k + 1;
    assert last in s.ids;
    assert NextOf(s.ids) == next;
    forall id: u32 | next - 4 <= id <= next
      ensures id in s'.ids
    {
      NewestNotOldest(s.ids + {next}, next, id);
    }
  }

  /** After k rotations the newest five ids are held, all ids held load with their own records, and the
      last id added was k. */
  ghost predicate NewestAfter(states: seq<SignedState>, datas: seq<Data>, k: nat) {
    && k < |states| && HoldsNewest(states[k].ids, k) && LoadsOwn(states[k], datas)
    && (k > 0 ==> NextOf(states[k - 1].ids) == k)
  }

  lemma NewestStart(states: seq<SignedState>, datas: seq<Data>, fails: seq<set<u32>>)
    requires Rotations(states, datas, fails)
    ensures NewestAfter(states, datas, 0)
  {
  }

  lemma NewestOneMore(states: seq<SignedState>, datas: seq<Data>, fails: seq<set<u32>>, k: nat)
    requires Rotations(states, datas, fails) && k + 1 < |states| && NewestAfter(states, datas, k)
    ensures NewestAfter(states, datas, k + 1)
  {
    RotationAt(states, datas, fails, k);
    NewestRotation(states[k], states[k + 1], datas[k + 1], fails[k], k);
    StillLoadsOwn(states[k], states[k + 1], datas, fails[k], k);
  }

  /** So it is whatever deletions fail during the cleanups. */
  lemma {:induction false} NewestStayLoadable(states: seq<SignedState>, datas: seq<Data>, fails: seq<set<u32>>, k: nat)
    requires Rotations(states, datas, fails) && k < |states|
    ensures NewestAfter(states, datas, k)
  {
    if k == 0 {
      NewestStart(states, datas, fails);
    } else {
      NewestStayLoadable(states, datas, fails, k - 1);
      NewestOneMore(states, datas, fails, k - 1);
    }
  }
}
