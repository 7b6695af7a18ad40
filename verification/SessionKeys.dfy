/** Session keys `name:deviceId`: printing, splitting and parsing them, and the operations of the
    session store that find a user's devices by their keys. */
module SessionKeys {
  import opened Bytes
  import opened Decimal
  import opened Keychain
  import opened KeyStores

  function SessionKey(name: string, deviceId: u32): string {
    name + ":" + Print(deviceId)
  }

  predicate NoColon(s: string) {
    forall i :: 0 <= i < |s| ==> s[i] != ':'
  }

  lemma PrintNoColon(n: u32)
    ensures NoColon(Print(n)) && Print(n) != []
  {
  }

  /** Printing a session key loses nothing, whatever the name: the last colon separates. */
  lemma SessionKeyInjective(a: string, d: u32, b: string, e: u32)
    requires SessionKey(a, d) == SessionKey(b, e)
    ensures a == b && d == e
  {
    var x, y := SessionKey(a, d), SessionKey(b, e);
    PrintNoColon(d);
    PrintNoColon(e);
    assert x[|a|] == ':' && y[|b|] == ':';
    assert forall i :: |a| < i < |x| ==> x[i] == Print(d)[i - |a| - 1];
    assert forall i :: |b| < i < |y| ==> y[i] == Print(e)[i - |b| - 1];
    assert x[..|a|] == a && y[..|b|] == b;
    assert x[|a| + 1..] == Print(d) && y[|b| + 1..] == Print(e);
    PrintInjective(d, e);
  }

  // ---------------------------------------------------------------- splitting

  /** The pieces between colons, empty ones omitted; `piece` is the one being read. */
  function SplitFrom(s: string, piece: string): seq<string> {
    if s == [] then (if piece == [] then [] else [piece])
    else if s[0] == ':' then (if piece == [] then [] else [piece]) + SplitFrom(s[1..], [])
    else SplitFrom(s[1..], piece + [s[0]])
  }

  function Split(s: string): seq<string> {
    SplitFrom(s, [])
  }

  lemma {:induction false} SplitNoColon(s: string, piece: string)
    requires NoColon(s)
    ensures SplitFrom(s, piece) == if piece + s == [] then [] else [piece + s]
  {
    if s != [] {
      SplitNoColon(s[1..], piece + [s[0]]);
      assert piece + [s[0]] + s[1..] == piece + s;
    } else {
      assert piece + s == piece;
    }
  }

  lemma {:induction false} SplitAtColon(a: string, rest: string, piece: string)
    ensures SplitFrom(a + ":" + rest, piece) == SplitFrom(a, piece) + SplitFrom(rest, [])
  {
    var s := a + ":" + rest;
    if a == [] {
      assert s[0] == ':' && s[1..] == rest;
    } else {
      assert s[0] == a[0] && s[1..] == a[1..] + ":" + rest;
      SplitAtColon(a[1..], rest, if a[0] == ':' then [] else piece + [a[0]]);
    }
  }

  lemma SplitColonFree(s: string)
    requires NoColon(s)
    ensures Split(s) == if s == [] then [] else [s]
  {
    SplitNoColon(s, []);
    assert [] + s == s;
  }

  /** A printed session key splits into the pieces of its name and the device id, whatever the name. */
  lemma SplitSessionKey(name: string, d: u32)
    ensures Split(SessionKey(name, d)) == Split(name) + [Print(d)]
  {
    PrintNoColon(d);
    SplitColonFree(Print(d));
    SplitAtColon(name, Print(d), []);
  }

  // ---------------------------------------------------------------- selection by name

  predicate StartsWith(s: string, prefix: string) {
    |prefix| <= |s| && s[..|prefix|] == prefix
  }

  /** The device id the store reads out of a key, if it accepts the key. */
  function DeviceOf(key: string): Option<u32> {
    var components := Split(key);
    if |components| == 2 then ParseU32(components[1]) else None
  }

  predicate IsSelected(key: string, name: string) {
    StartsWith(key, name + ":") && DeviceOf(key).Some?
  }

  /** The key that is deleted on account of a selected key. */
  function Target(key: string, name: string): string
    requires DeviceOf(key).Some?
  {
    SessionKey(name, DeviceOf(key).value)
  }

  /** Keys of the index that the operations on `name` act on. */
  function Selected(active: set<string>, name: string): set<string> {
    set k | k in active && IsSelected(k, name)
  }

  /** The name's own keys: what the operations are meant to act on. */
  ghost predicate Belongs(key: string, name: string) {
    exists d: u32 :: key == SessionKey(name, d)
  }

  /** Every key of the index was built by printing a name and a device id. */
  ghost predicate Printed(active: set<string>) {
    forall k :: k in active ==> exists n: string :: Belongs(k, n)
  }

  /** Splitting finds one piece in the name: besides that piece it has at most leading and trailing
      colons. In particular every non-empty colon-free name is of this kind. */
  predicate OnePiece(name: string) {
    |Split(name)| == 1
  }

  /** Names whose keys are taken for keys of `name`: they continue it with a colon, and splitting,
      which drops empty pieces, does not tell. */
  predicate TakenFor(n: string, name: string) {
    n != name && OnePiece(n) && StartsWith(n, name + ":")
  }

  /** A key of the index belongs to another name but is taken for one of `name`. */
  ghost predicate IsAlias(key: string, name: string) {
    exists n: string, d: u32 :: TakenFor(n, name) && key == SessionKey(n, d)
  }

  lemma PrefixDecides(n: string, d: u32, name: string)
    ensures StartsWith(SessionKey(n, d), name + ":") <==> n == name || StartsWith(n, name + ":")
  {
    var k, p := SessionKey(n, d), name + ":";
    PrintNoColon(d);
    assert k[..|n|] == n && k[|n|] == ':';
    if n == name {
      assert k[..|p|] == p;
    }
    if StartsWith(n, p) {
      assert k[..|p|] == n[..|p|];
    }
    if StartsWith(k, p) {
      assert p[|name|] == ':' && k[|name|] == p[|name|];
      assert forall i :: |n| < i < |k| ==> k[i] == Print(d)[i - |n| - 1];
      assert |name| <= |n|;
      if |name| == |n| {
        assert k[..|p|][..|n|] == n && p[..|n|] == name;
      } else {
        assert n[..|p|] == k[..|p|];
      }
    }
  }

  /** Which printed keys are selected, and the device id read from them, for all names. */
  lemma SelectedKey(n: string, d: u32, name: string)
    ensures IsSelected(SessionKey(n, d), name) <==> OnePiece(n) && (n == name || StartsWith(n, name + ":"))
    ensures OnePiece(n) ==> DeviceOf(SessionKey(n, d)) == Some(d)
  {
    PrefixDecides(n, d, name);
    SplitSessionKey(n, d);
    ParseInvertsPrint(d);
  }

  /** The same by key: selected are the name's own keys, if it is of one piece, and the aliases. */
  lemma SelectedOrAlias(k: string, name: string)
    requires exists n: string :: Belongs(k, n)
    ensures IsSelected(k, name) <==> (Belongs(k, name) && OnePiece(name)) || IsAlias(k, name)
    ensures !(Belongs(k, name) && IsAlias(k, name))
    ensures Belongs(k, name) && OnePiece(name) ==> Target(k, name) == k
    ensures IsAlias(k, name) ==> Target(k, name) != k
  {
    var n: string :| Belongs(k, n);
    var d: u32 :| k == SessionKey(n, d);
    SelectedKey(n, d, name);
    if Belongs(k, name) {
      var e: u32 :| k == SessionKey(name, e);
      SessionKeyInjective(n, d, name, e);
    }
    if IsAlias(k, name) {
      var m: string, e: u32 :| TakenFor(m, name) && k == SessionKey(m, e);
      SessionKeyInjective(n, d, m, e);
      if Target(k, name) == k {
        SessionKeyInjective(name, d, n, d);
      }
    }
  }

  /** Selection by name is exact if and only if the name is of one piece or has no session, and no
      other session is taken for one of its own; the own keys then give back their own device ids. */
  lemma SelectionIsExact(active: set<string>, name: string)
    requires Printed(active)
    ensures (forall k :: k in active ==> (IsSelected(k, name) <==> Belongs(k, name)))
            <==> Unmistakable(active, name)
    ensures Unmistakable(active, name) ==>
              forall k :: k in Selected(active, name) ==> k == SessionKey(name, DeviceOf(k).value)
  {
    forall k | k in active
      ensures IsSelected(k, name) <==> (Belongs(k, name) && OnePiece(name)) || IsAlias(k, name)
      ensures !(Belongs(k, name) && IsAlias(k, name))
      ensures Belongs(k, name) && OnePiece(name) ==> Target(k, name) == k
    {
      SelectedOrAlias(k, name);
    }
  }

  ghost predicate Unmistakable(active: set<string>, name: string) {
    && (OnePiece(name) || forall k :: k in active ==> !Belongs(k, name))
    && (forall k :: k in active ==> !IsAlias(k, name))
  }

  lemma TakenForHasColon(n: string, name: string)
    requires TakenFor(n, name)
    ensures !NoColon(n)
  {
    assert n[|name|] == (name + ":")[|name|];
  }

  /** In an index of colon-free names the only mistakable one is the empty name. */
  lemma ColonFreeUnmistakable(active: set<string>, name: string)
    requires forall k :: k in active ==> exists n: string :: NoColon(n) && Belongs(k, n)
    ensures name != [] ==> Unmistakable(active, name)
  {
    forall k | k in active
      ensures !IsAlias(k, name)
      ensures Belongs(k, name) && name != [] ==> OnePiece(name)
    {
      var n: string :| NoColon(n) && Belongs(k, n);
      var d: u32 :| k == SessionKey(n, d);
      SplitColonFree(n);
      if Belongs(k, name) {
        var e: u32 :| k == SessionKey(name, e);
        SessionKeyInjective(n, d, name, e);
      }
      if IsAlias(k, name) {
        var m: string, e: u32 :| TakenFor(m, name) && k == SessionKey(m, e);
        SessionKeyInjective(n, d, m, e);
        TakenForHasColon(m, name);
      }
    }
  }

  /** A name with a colon between two pieces selects none of its own keys. */
  lemma InnerColonNotSelected(a: string, b: string, d: u32)
    requires Split(a) != [] && Split(b) != []
    ensures !IsSelected(SessionKey(a + ":" + b, d), a + ":" + b)
  {
    SplitAtColon(a, b, []);
    SelectedKey(a + ":" + b, d, a + ":" + b);
  }

  // ---------------------------------------------------------------- deleting a user's sessions

  predicate IsHit(key: string, name: string, fails: set<string>) {
    IsSelected(key, name) && Target(key, name) !in fails
  }

  /** Selected keys whose deletion succeeds ... */
  function Hits(ks: set<string>, name: string, fails: set<string>): set<string> {
    set k | k in ks && IsHit(k, name, fails)
  }

  /** ... and the keys those deletions remove. */
  function Targets(ks: set<string>, name: string, fails: set<string>): set<string> {
    set k | k in ks && IsHit(k, name, fails) :: Target(k, name)
  }

  function TagsOf(keys: set<string>): set<string> {
    set k | k in keys :: Tag(Session(k))
  }

  /** after is before without the records of the given keys; only the session list may differ besides. */
  ghost predicate Without(before: Items, after: Items, keys: set<string>) {
    forall tag :: tag != Tag(SessionList) ==>
                    ((tag in after <==> tag in before && tag !in TagsOf(keys))
                       && (tag in after ==> after[tag] == before[tag]))
  }

  lemma HitsOneMore(done: set<string>, key: string, name: string, fails: set<string>)
    requires key !in done
    ensures IsHit(key, name, fails) ==>
              && Targets(done + {key}, name, fails) == Targets(done, name, fails) + {Target(key, name)}
              && |Hits(done + {key}, name, fails)| == |Hits(done, name, fails)| + 1
    ensures !IsHit(key, name, fails) ==>
              && Targets(done + {key}, name, fails) == Targets(done, name, fails)
              && |Hits(done + {key}, name, fails)| == |Hits(done, name, fails)|
  {
    if IsHit(key, name, fails) {
      assert Hits(done + {key}, name, fails) == Hits(done, name, fails) + {key};
    } else {
      assert Hits(done + {key}, name, fails) == Hits(done, name, fails);
    }
  }

  /** How far deleteAllSessions has got after handling the keys of `done`. */
  ghost predicate Progress(s0: SessionState, s: SessionState, done: set<string>, name: string, fails: set<string>,
                           count: nat) {
    && count == |Hits(done, name, fails)|
    && s.active == s0.active - Targets(done, name, fails)
    && Without(s0.items, s.items, Targets(done, name, fails))
  }

  lemma ProgressMiss(s0: SessionState, s: SessionState, done: set<string>, key: string, name: string,
                     fails: set<string>, count: nat)
    requires Progress(s0, s, done, name, fails, count) && key !in done && !IsHit(key, name, fails)
    ensures Progress(s0, s, done + {key}, name, fails, count)
  {
    HitsOneMore(done, key, name, fails);
  }

  lemma ProgressHit(s0: SessionState, s: SessionState, done: set<string>, key: string, name: string,
                    fails: set<string>, count: nat, fm: Fate)
    requires Progress(s0, s, done, name, fails, count) && key !in done && IsHit(key, name, fails)
    ensures Progress(s0, DeleteSession(s, Target(key, name), true, fm), done + {key}, name, fails, count + 1)
  {
    HitsOneMore(done, key, name, fails);
  }

  /** The loop body of deleteAllSessions for one key. */
  method DeleteSelected(store: SessionStore, sessionKey: string, name: string, fails: set<string>, fm: Fate,
                        ghost s0: SessionState, ghost done: set<string>, count: nat) returns (deletedCount: nat)
    requires StartsWith(sessionKey, name + ":") && sessionKey !in done
    requires Progress(s0, store.View(), done, name, fails, count)
    modifies store, store.keychain
    ensures Progress(s0, store.View(), done + {sessionKey}, name, fails, deletedCount)
  {
    deletedCount := count;
    var components := Split(sessionKey);
    if |components| == 2 && ParseU32(components[1]).Some? {
      var key := SessionKey(name, ParseU32(components[1]).value);
      if IsHit(sessionKey, name, fails) {
        ProgressHit(s0, store.View(), done, sessionKey, name, fails, count, fm);
      } else {
        ProgressMiss(s0, store.View(), done, sessionKey, name, fails, count);
      }
      var deleted := store.Delete(key, key !in fails, fm);
      if deleted {
        deletedCount := deletedCount + 1;
      }
    } else {
      ProgressMiss(s0, store.View(), done, sessionKey, name, fails, count);
    }
  }

  /** deleteAllSessions(name). `fails` are the keys whose deletion throws; `fm` answers the successive
      saves of the index. */
  method DeleteAllSessions(store: SessionStore, name: string, fails: set<string>, fm: nat -> Fate)
    returns (deletedCount: nat)
    modifies store, store.keychain
    ensures Progress(old(store.View()), store.View(), old(store.activeSessions), name, fails, deletedCount)
  {
    ghost var s0 := store.View();
    var sessionsToDelete := set k | k in store.activeSessions && StartsWith(k, name + ":");
    var rest := sessionsToDelete;
    ghost var done: set<string> := {};
    deletedCount := 0;
    while rest != {}
      invariant rest <= sessionsToDelete && done == sessionsToDelete - rest
      invariant Progress(s0, store.View(), done, name, fails, deletedCount)
      decreases rest
    {
      var sessionKey :| sessionKey in rest;
      deletedCount := DeleteSelected(store, sessionKey, name, fails, fm(deletedCount), s0, done, deletedCount);
      rest, done := rest - {sessionKey}, done + {sessionKey};
    }
    assert done == sessionsToDelete;
    UnselectedDoNotCount(s0.active, done, name, fails);
  }

  lemma UnselectedDoNotCount(active: set<string>, done: set<string>, name: string, fails: set<string>)
    requires done == set k | k in active && StartsWith(k, name + ":")
    ensures Hits(done, name, fails) == Hits(active, name, fails)
    ensures Targets(done, name, fails) == Targets(active, name, fails)
  {
  }

  ghost predicate IsOwnHit(k: string, name: string, fails: set<string>) {
    Belongs(k, name) && k !in fails
  }

  /** Whatever the names, only keys of the given name are ever deleted. The deletions counted are those of
      the name's sessions that do not throw, each on account of its own key, if and only if the name is of
      one piece or has no such session, and no alias stands for a key whose deletion does not throw. */
  lemma DeletesExactlyOwn(active: set<string>, name: string, fails: set<string>)
    requires Printed(active)
    ensures forall k :: k in Targets(active, name, fails) ==> IsOwnHit(k, name, fails)
    ensures (forall k :: k in active ==> (IsHit(k, name, fails) <==> IsOwnHit(k, name, fails)))
            <==> && (OnePiece(name) || forall k :: k in active ==> !IsOwnHit(k, name, fails))
                 && (forall k :: k in active && IsAlias(k, name) ==> !IsHit(k, name, fails))
    ensures (forall k :: k in active ==> (IsHit(k, name, fails) <==> IsOwnHit(k, name, fails)))
            ==> Targets(active, name, fails) == Hits(active, name, fails)
  {
    forall k | k in active
      ensures IsSelected(k, name) <==> (Belongs(k, name) && OnePiece(name)) || IsAlias(k, name)
      ensures !(Belongs(k, name) && IsAlias(k, name))
      ensures Belongs(k, name) && OnePiece(name) ==> Target(k, name) == k
    {
      SelectedOrAlias(k, name);
    }
  }

  /** The number returned is the number of sessions that left the index if and only if no alias was
      counted, for every name that does not consist of colons only. */
  lemma CountIsExact(active: set<string>, name: string, fails: set<string>)
    requires Printed(active) && Split(name) != []
    ensures |Hits(active, name, fails)| == |active * Targets(active, name, fails)|
            <==> forall k :: k in active && IsAlias(k, name) ==> !IsHit(k, name, fails)
  {
    var hits, gone := Hits(active, name, fails), active * Targets(active, name, fails);
    forall k | k in active
      ensures k in gone <==> OnePiece(name) && IsOwnHit(k, name, fails)
      ensures k in hits <==> k in gone || (IsAlias(k, name) && IsHit(k, name, fails))
      ensures !(k in gone && IsAlias(k, name))
    {
      SelectedOrAlias(k, name);
      if |Split(name)| > 1 {
        NoneSelectedOfSeveralPieces(active, name);
      }
    }
    assert gone <= hits;
    if |hits| == |gone| {
      SubsetOfEqualSize(gone, hits);
    } else {
      assert hits != gone;
    }
  }

  lemma NoneSelectedOfSeveralPieces(active: set<string>, name: string)
    requires Printed(active) && |Split(name)| > 1
    ensures forall k :: k in active ==> !IsSelected(k, name)
  {
    NoAliasOfSeveralPieces(name);
    forall k | k in active
      ensures !IsSelected(k, name)
    {
      SelectedOrAlias(k, name);
    }
  }

  /** What an alias does: its deletion is counted although nothing of it is removed. */
  lemma AliasCountedTwice(name: string, d: u32)
    requires OnePiece(name)
    ensures
      var own, alias := SessionKey(name, d), SessionKey(name + ":", d);
      && alias != own && IsAlias(alias, name)
      && |Hits({own, alias}, name, {})| == 2 && Targets({own, alias}, name, {}) == {own}
      && |Hits({alias}, name, {})| == 1 && alias !in Targets({alias}, name, {})
  {
    var own, alias := SessionKey(name, d), SessionKey(name + ":", d);
    SplitAtColon(name, [], []);
    assert name + ":" + [] == name + ":";
    assert TakenFor(name + ":", name);
    assert Belongs(own, name) && Belongs(alias, name + ":");
    SelectedOrAlias(own, name);
    SelectedOrAlias(alias, name);
    SelectedKey(name + ":", d, name);
    assert Hits({own, alias}, name, {}) == {own, alias};
    assert Hits({alias}, name, {}) == {alias};
  }

  // ---------------------------------------------------------------- listing a user's devices

  ghost predicate Ascending(s: seq<u32>) {
    forall i, j :: 0 <= i < j < |s| ==> s[i] <= s[j]
  }

  /** Inserts into an ascending list, behind equal elements. */
  function InsertSorted(s: seq<u32>, x: u32): seq<u32> {
    if s == [] || x < s[0] then [x] + s else [s[0]] + InsertSorted(s[1..], x)
  }

  ghost predicate AtLeast(s: seq<u32>, b: u32) {
    forall i :: 0 <= i < |s| ==> b <= s[i]
  }

  lemma {:induction false} InsertSortedMembers(s: seq<u32>, x: u32)
    ensures multiset(InsertSorted(s, x)) == multiset(s) + multiset{x}
  {
    if s != [] && !(x < s[0]) {
      InsertSortedMembers(s[1..], x);
      assert s == [s[0]] + s[1..];
    }
  }

  lemma {:induction false} InsertSortedBound(s: seq<u32>, x: u32, b: u32)
    requires AtLeast(s, b) && b <= x
    ensures AtLeast(InsertSorted(s, x), b)
  {
    if s != [] && !(x < s[0]) {
      InsertSortedBound(s[1..], x, b);
    }
  }

  lemma {:induction false} InsertSortedSpec(s: seq<u32>, x: u32)
    requires Ascending(s)
    ensures Ascending(InsertSorted(s, x)) && multiset(InsertSorted(s, x)) == multiset(s) + multiset{x}
  {
    InsertSortedMembers(s, x);
    if s != [] && !(x < s[0]) {
      InsertSortedSpec(s[1..], x);
      InsertSortedBound(s[1..], x, s[0]);
    }
  }

  /** The device ids read out of the selected keys, as a multiset. */
  ghost predicate DevicesOf(ks: set<string>, name: string, ids: multiset<u32>) {
    && |ids| == |Selected(ks, name)|
    && forall d: u32 :: d in ids <==> exists k :: k in Selected(ks, name) && DeviceOf(k).value == d
  }

  lemma DevicesOneMore(done: set<string>, key: string, name: string, ids: multiset<u32>)
    requires DevicesOf(done, name, ids) && key !in done
    ensures IsSelected(key, name) ==> DevicesOf(done + {key}, name, ids + multiset{DeviceOf(key).value})
    ensures !IsSelected(key, name) ==> DevicesOf(done + {key}, name, ids)
  {
    if IsSelected(key, name) {
      assert Selected(done + {key}, name) == Selected(done, name) + {key};
    } else {
      assert Selected(done + {key}, name) == Selected(done, name);
    }
  }

  /** getSubDeviceSessions(name): collects the ids and sorts them. */
  method GetSubDeviceSessions(store: SessionStore, name: string) returns (deviceIds: seq<u32>)
    ensures Ascending(deviceIds) && DevicesOf(store.activeSessions, name, multiset(deviceIds))
  {
    var rest := store.activeSessions;
    ghost var done: set<string> := {};
    deviceIds := [];
    while rest != {}
      invariant rest + done == store.activeSessions && rest !! done
      invariant Ascending(deviceIds) && DevicesOf(done, name, multiset(deviceIds))
      decreases rest
    {
      var sessionKey :| sessionKey in rest;
      DevicesOneMore(done, sessionKey, name, multiset(deviceIds));
      if StartsWith(sessionKey, name + ":") {
        var components := Split(sessionKey);
        if |components| == 2 && ParseU32(components[1]).Some? {
          InsertSortedSpec(deviceIds, ParseU32(components[1]).value);
          deviceIds := InsertSorted(deviceIds, ParseU32(components[1]).value);
        }
      }
      rest, done := rest - {sessionKey}, done + {sessionKey};
    }
    assert done == store.activeSessions;
  }

  /** The list is strictly ascending and holds exactly the device ids of the name's sessions. */
  ghost predicate Lists(active: set<string>, name: string, ids: seq<u32>) {
    && (forall d: u32 :: d in ids <==> SessionKey(name, d) in active)
    && (forall i, j :: 0 <= i < j < |ids| ==> ids[i] < ids[j])
  }

  /** It does under the condition of SelectionIsExact, and, unless the name consists of colons only,
      under no other. */
  lemma ListsExactlyOwn(active: set<string>, name: string, ids: seq<u32>)
    requires Printed(active) && Ascending(ids) && DevicesOf(active, name, multiset(ids))
    ensures Unmistakable(active, name) ==> Lists(active, name, ids)
    ensures Split(name) != [] && Lists(active, name, ids) ==> Unmistakable(active, name)
  {
    assert forall d: u32 :: d in ids <==> d in multiset(ids);
    if Unmistakable(active, name) {
      ListsWhenUnmistakable(active, name, ids);
    }
    if Split(name) != [] && Lists(active, name, ids) {
      UnmistakableWhenListed(active, name, ids);
    }
  }

  lemma ListsWhenUnmistakable(active: set<string>, name: string, ids: seq<u32>)
    requires Printed(active) && Ascending(ids) && DevicesOf(active, name, multiset(ids))
    requires Unmistakable(active, name)
    ensures Lists(active, name, ids)
  {
    SelectionIsExact(active, name);
    forall d: u32
      ensures d in ids <==> SessionKey(name, d) in active
    {
      assert d in ids <==> d in multiset(ids);
      if SessionKey(name, d) in active {
        var k := SessionKey(name, d);
        assert Belongs(k, name);
        SessionKeyInjective(name, DeviceOf(k).value, name, d);
      }
    }
    DistinctDevices(Selected(active, name), name, ids);
  }

  /** The name's own keys in the index. */
  ghost function OwnKeys(active: set<string>, name: string): set<string> {
    set k | k in active && Belongs(k, name)
  }

  /** A strictly ascending list of exactly the own ids has one element per own key. */
  lemma ListSize(active: set<string>, name: string, ids: seq<u32>)
    requires Lists(active, name, ids)
    ensures |ids| == |OwnKeys(active, name)|
  {
    var printed := seq(|ids|, i requires 0 <= i < |ids| => SessionKey(name, ids[i]));
    forall i, j | 0 <= i < j < |ids|
      ensures printed[i] != printed[j]
    {
      if printed[i] == printed[j] {
        SessionKeyInjective(name, ids[i], name, ids[j]);
      }
    }
    forall k
      ensures k in printed <==> k in OwnKeys(active, name)
    {
      if k in OwnKeys(active, name) {
        var d: u32 :| k == SessionKey(name, d);
        var i :| 0 <= i < |ids| && ids[i] == d;
        assert printed[i] == k;
      }
      if k in printed {
        var i :| 0 <= i < |ids| && printed[i] == k;
        assert ids[i] in ids;
      }
    }
    DistinctSize(printed, OwnKeys(active, name));
  }

  lemma {:induction false} DistinctSize(q: seq<string>, s: set<string>)
    requires (forall i, j :: 0 <= i < j < |q| ==> q[i] != q[j]) && forall k :: k in q <==> k in s
    ensures |q| == |s|
  {
    if q == [] {
      assert s == {};
    } else {
      var n := |q| - 1;
      var front, last := q[..n], q[n];
      assert q == front + [last];
      assert last in q && last !in front;
      DistinctSize(front, s - {last});
      assert s == (s - {last}) + {last};
    }
  }

  lemma UnmistakableWhenListed(active: set<string>, name: string, ids: seq<u32>)
    requires Printed(active) && DevicesOf(active, name, multiset(ids)) && Split(name) != []
    requires Lists(active, name, ids)
    ensures Unmistakable(active, name)
  {
    ListSize(active, name, ids);
    var selected, own := Selected(active, name), OwnKeys(active, name);
    assert |selected| == |own|;
    forall k | k in active
      ensures k in selected <==> (Belongs(k, name) && OnePiece(name)) || IsAlias(k, name)
      ensures !(Belongs(k, name) && IsAlias(k, name))
    {
      SelectedOrAlias(k, name);
    }
    if OnePiece(name) {
      assert own <= selected;
      SubsetOfEqualSize(own, selected);
    } else {
      NoAliasOfSeveralPieces(name);
      assert selected == {};
      assert own == {};
    }
  }

  lemma NoAliasOfSeveralPieces(name: string)
    requires |Split(name)| > 1
    ensures forall n: string :: !TakenFor(n, name)
  {
    forall n: string | StartsWith(n, name + ":")
      ensures !OnePiece(n)
    {
      var p := name + ":";
      assert n == name + ":" + n[|p|..];
      SplitAtColon(name, n[|p|..], []);
    }
  }

  lemma SubsetOfEqualSize(a: set<string>, b: set<string>)
    requires a <= b && |a| == |b|
    ensures a == b
  {
    assert b == a + (b - a) && |b| == |a| + |b - a|;
  }

  /** As many ids as keys, one key per id: so no id occurs twice. */
  lemma DistinctDevices(ks: set<string>, name: string, ids: seq<u32>)
    requires |ids| == |ks| && Ascending(ids)
    requires forall k :: k in ks ==>
               DeviceOf(k).Some? && DeviceOf(k).value in ids && k == SessionKey(name, DeviceOf(k).value)
    ensures forall i, j :: 0 <= i < j < |ids| ==> ids[i] < ids[j]
  {
    var image := set k | k in ks :: DeviceOf(k).value;
    ImageSize(ks, name, image);
    if i, j :| 0 <= i < j < |ids| && !(ids[i] < ids[j]) {
      SetFitsSequence(image, ids[..j] + ids[j + 1..]);
    }
  }

  lemma {:induction false} ImageSize(ks: set<string>, name: string, image: set<u32>)
    requires forall k :: k in ks ==> DeviceOf(k).Some? && k == SessionKey(name, DeviceOf(k).value)
    requires image == set k | k in ks :: DeviceOf(k).value
    ensures |image| == |ks|
    decreases ks
  {
    if ks != {} {
      var k :| k in ks;
      var ks', d := ks - {k}, DeviceOf(k).value;
      var image' := set x | x in ks' :: DeviceOf(x).value;
      ImageSize(ks', name, image');
      assert image == image' + {d};
      forall x | x in ks'
        ensures DeviceOf(x).value != d
      {
        assert x != k && x == SessionKey(name, DeviceOf(x).value);
      }
    }
  }

  lemma {:induction false} SetFitsSequence(s: set<u32>, q: seq<u32>)
    requires forall d :: d in s ==> d in q
    ensures |s| <= |q|
  {
    if q == [] {
      assert s == {};
    } else {
      var n := |q| - 1;
      assert q == q[..n] + [q[n]];
      SetFitsSequence(s - {q[n]}, q[..n]);
      assert s <= (s - {q[n]}) + {q[n]};
    }
  }
}
