/** Contact discovery: deduplication of the address book, the hash lookup table, and discovery in
    one request or in batches. */
module Contacts {
  import opened Bytes

  datatype DeviceContact = DeviceContact(id: string, displayName: string, phoneNumber: string,
                                         avatarUri: Option<string>)

  datatype ServerUser = ServerUser(userId: string, phoneHash: string)

  datatype RegisteredContact = RegisteredContact(
    userId: string, displayName: string, phoneNumber: string, phoneHash: string, avatarUri: Option<string>)

  // ---------------------------------------------------------------- deduplication

  /** Contact i is the one to keep for its number among the first n: the longest name, and the
      earliest of those. */
  ghost predicate IsBest(contacts: seq<DeviceContact>, n: nat, i: nat) {
    && n <= |contacts| && i < n
    && forall j :: 0 <= j < n && contacts[j].phoneNumber == contacts[i].phoneNumber ==>
         |contacts[j].displayName| <= |contacts[i].displayName|
         && (j < i ==> |contacts[j].displayName| < |contacts[i].displayName|)
  }

  ghost predicate Deduplicated(contacts: seq<DeviceContact>, n: nat, unique: map<string, DeviceContact>)
    requires n <= |contacts|
  {
    && (forall j :: 0 <= j < n ==> contacts[j].phoneNumber in unique)
    && (forall p :: p in unique ==> KeptFor(contacts, n, p, unique[p]))
  }

  /** c is the best of the first n contacts with number p. */
  ghost predicate KeptFor(contacts: seq<DeviceContact>, n: nat, p: string, c: DeviceContact) {
    exists i: nat :: IsBest(contacts, n, i) && contacts[i] == c && c.phoneNumber == p
  }

  lemma KeepBest(contacts: seq<DeviceContact>, n: nat, p: string, c: DeviceContact)
    requires KeptFor(contacts, n, p, c) && n < |contacts|
    requires contacts[n].phoneNumber == p ==> |contacts[n].displayName| <= |c.displayName|
    ensures KeptFor(contacts, n + 1, p, c)
  {
    var i: nat :| IsBest(contacts, n, i) && contacts[i] == c && c.phoneNumber == p;
    assert IsBest(contacts, n + 1, i);
  }

  lemma NewBest(contacts: seq<DeviceContact>, n: nat, unique: map<string, DeviceContact>)
    requires n < |contacts| && Deduplicated(contacts, n, unique)
    requires
      var c := contacts[n];
      c.phoneNumber in unique ==> |c.displayName| > |unique[c.phoneNumber].displayName|
    ensures KeptFor(contacts, n + 1, contacts[n].phoneNumber, contacts[n])
  {
    var p := contacts[n].phoneNumber;
    if p in unique {
      assert KeptFor(contacts, n, p, unique[p]);
      var i: nat :| IsBest(contacts, n, i) && contacts[i] == unique[p] && unique[p].phoneNumber == p;
    }
    assert IsBest(contacts, n + 1, n);
  }

  lemma KeepStep(contacts: seq<DeviceContact>, n: nat, unique: map<string, DeviceContact>)
    requires n < |contacts| && Deduplicated(contacts, n, unique)
    requires
      var c := contacts[n];
      c.phoneNumber in unique && |c.displayName| <= |unique[c.phoneNumber].displayName|
    ensures Deduplicated(contacts, n + 1, unique)
  {
    forall p | p in unique
      ensures KeptFor(contacts, n + 1, p, unique[p])
    {
      KeepBest(contacts, n, p, unique[p]);
    }
  }

  lemma ReplaceStep(contacts: seq<DeviceContact>, n: nat, unique: map<string, DeviceContact>)
    requires n < |contacts| && Deduplicated(contacts, n, unique)
    requires
      var c := contacts[n];
      c.phoneNumber in unique ==> |c.displayName| > |unique[c.phoneNumber].displayName|
    ensures Deduplicated(contacts, n + 1, unique[contacts[n].phoneNumber := contacts[n]])
  {
    var unique' := unique[contacts[n].phoneNumber := contacts[n]];
    forall p | p in unique'
      ensures KeptFor(contacts, n + 1, p, unique'[p])
    {
      if p == contacts[n].phoneNumber {
        NewBest(contacts, n, unique);
      } else {
        KeepBest(contacts, n, p, unique[p]);
      }
    }
  }

  /** The dictionary after the loop: for each number the earliest contact with the longest name. */
  method CollectUnique(contacts: seq<DeviceContact>) returns (uniqueContacts: map<string, DeviceContact>)
    ensures Deduplicated(contacts, |contacts|, uniqueContacts)
  {
    uniqueContacts := map[];
    for n := 0 to |contacts|
      invariant Deduplicated(contacts, n, uniqueContacts)
    {
      var contact := contacts[n];
      if contact.phoneNumber in uniqueContacts {
        if |contact.displayName| > |uniqueContacts[contact.phoneNumber].displayName| {
          ReplaceStep(contacts, n, uniqueContacts);
          uniqueContacts := uniqueContacts[contact.phoneNumber := contact];
        } else {
          KeepStep(contacts, n, uniqueContacts);
        }
      } else {
        ReplaceStep(contacts, n, uniqueContacts);
        uniqueContacts := uniqueContacts[contact.phoneNumber := contact];
      }
    }
  }

  /** The locale's strict order of names. */
  type NameOrder = (string, string) -> bool

  ghost predicate IsStrictOrder(less: NameOrder) {
    && (forall x :: !less(x, x))
    && (forall x, y, z :: less(x, y) && less(y, z) ==> less(x, z))
  }

  /** No contact stands behind one whose name comes later. */
  ghost predicate SortedByName(less: NameOrder, s: seq<DeviceContact>) {
    forall i, j :: 0 <= i < j < |s| ==> !less(s[j].displayName, s[i].displayName)
  }

  function InsertByName(less: NameOrder, s: seq<DeviceContact>, c: DeviceContact): seq<DeviceContact> {
    if s == [] || less(c.displayName, s[0].displayName) then [c] + s
    else [s[0]] + InsertByName(less, s[1..], c)
  }

  lemma {:induction false} InsertByNameMembers(less: NameOrder, s: seq<DeviceContact>, c: DeviceContact)
    ensures multiset(InsertByName(less, s, c)) == multiset(s) + multiset{c}
  {
    if s != [] && !less(c.displayName, s[0].displayName) {
      InsertByNameMembers(less, s[1..], c);
      assert s == [s[0]] + s[1..];
    }
  }

  lemma PrependSorted(less: NameOrder, c: DeviceContact, s: seq<DeviceContact>)
    requires SortedByName(less, s) && forall j :: 0 <= j < |s| ==> !less(s[j].displayName, c.displayName)
    ensures SortedByName(less, [c] + s)
  {
  }

  lemma {:induction false} InsertByNameSorted(less: NameOrder, s: seq<DeviceContact>, c: DeviceContact)
    requires IsStrictOrder(less) && SortedByName(less, s)
    ensures SortedByName(less, InsertByName(less, s, c))
  {
    if s == [] || less(c.displayName, s[0].displayName) {
      PrependSorted(less, c, s);
    } else {
      var rest := InsertByName(less, s[1..], c);
      InsertByNameSorted(less, s[1..], c);
      InsertByNameMembers(less, s[1..], c);
      forall j | 0 <= j < |rest|
        ensures !less(rest[j].displayName, s[0].displayName)
      {
        assert rest[j] in multiset(rest);
        assert rest[j] == c || rest[j] in s[1..];
      }
      PrependSorted(less, s[0], rest);
    }
  }

  /** The values of the dictionary, each once. */
  ghost predicate ListsValues(unique: map<string, DeviceContact>, keys: set<string>, r: seq<DeviceContact>) {
    && (forall i :: 0 <= i < |r| ==>
          r[i].phoneNumber in keys && r[i].phoneNumber in unique && unique[r[i].phoneNumber] == r[i])
    && (forall p :: p in keys && p in unique ==> unique[p] in r)
    && (forall i, j :: 0 <= i < j < |r| ==> r[i].phoneNumber != r[j].phoneNumber)
  }

  /** Inserting one more value anywhere keeps each value listed once. */
  lemma ListOneMore(unique: map<string, DeviceContact>, keys: set<string>, r: seq<DeviceContact>, p: string,
                    r': seq<DeviceContact>)
    requires ListsValues(unique, keys, r) && p !in keys && p in unique && unique[p].phoneNumber == p
    requires multiset(r') == multiset(r) + multiset{unique[p]}
    ensures ListsValues(unique, keys + {p}, r')
  {
    forall c: DeviceContact
      ensures c in r' <==> c in r || c == unique[p]
    {
      assert c in r' <==> c in multiset(r');
      assert c in r <==> c in multiset(r);
    }
    forall q | q in keys + {p} && q in unique
      ensures unique[q] in r'
    {
      assert q in keys ==> unique[q] in r;
    }
    forall i | 0 <= i < |r'|
      ensures r'[i].phoneNumber in keys + {p} && r'[i].phoneNumber in unique && unique[r'[i].phoneNumber] == r'[i]
    {
      assert r'[i] in r';
    }
    forall i, j | 0 <= i < j < |r'|
      ensures r'[i].phoneNumber != r'[j].phoneNumber
    {
      assert r'[i] in r' && r'[j] in r';
      if r'[i].phoneNumber == r'[j].phoneNumber {
        assert r'[i] == r'[j];
        OccursTwice(r', i, j);
        OccursOnce(r, r'[i]);
      }
    }
  }

  lemma OccursTwice(s: seq<DeviceContact>, i: nat, j: nat)
    requires i < j < |s| && s[i] == s[j]
    ensures multiset(s)[s[i]] >= 2
  {
    assert s == s[..j] + [s[j]] + s[j + 1..];
    assert s[i] in s[..j];
  }

  lemma {:induction false} OccursOnce(s: seq<DeviceContact>, c: DeviceContact)
    requires forall i, j :: 0 <= i < j < |s| ==> s[i].phoneNumber != s[j].phoneNumber
    ensures multiset(s)[c] <= 1
  {
    if s != [] {
      assert s == [s[0]] + s[1..];
      OccursOnce(s[1..], c);
      assert c == s[0] ==> c !in s[1..];
    }
  }

  /** Array(uniqueContacts.values), sorted. */
  method Arrange(unique: map<string, DeviceContact>, less: NameOrder) returns (r: seq<DeviceContact>)
    requires forall p :: p in unique ==> unique[p].phoneNumber == p
    ensures ListsValues(unique, unique.Keys, r)
    ensures IsStrictOrder(less) ==> SortedByName(less, r)
  {
    r := [];
    var rest := unique.Keys;
    ghost var done: set<string> := {};
    while rest != {}
      invariant rest + done == unique.Keys && rest !! done
      invariant ListsValues(unique, done, r)
      invariant IsStrictOrder(less) ==> SortedByName(less, r)
      decreases rest
    {
      var p :| p in rest;
      var r' := InsertByName(less, r, unique[p]);
      InsertByNameMembers(less, r, unique[p]);
      ListOneMore(unique, done, r, p, r');
      if IsStrictOrder(less) {
        InsertByNameSorted(less, r, unique[p]);
      }
      r, rest, done := r', rest - {p}, done + {p};
    }
    assert done == unique.Keys;
  }

  ghost predicate DistinctNumbers(s: seq<DeviceContact>) {
    forall i, j :: 0 <= i < j < |s| ==> s[i].phoneNumber != s[j].phoneNumber
  }

  ghost predicate HasNumber(s: seq<DeviceContact>, number: string) {
    exists i :: 0 <= i < |s| && s[i].phoneNumber == number
  }

  /** r holds, for each number of the contacts, one entry: the earliest with the longest name. */
  ghost predicate Unduplicated(contacts: seq<DeviceContact>, r: seq<DeviceContact>) {
    && DistinctNumbers(r)
    && (forall i :: 0 <= i < |r| ==> KeptFor(contacts, |contacts|, r[i].phoneNumber, r[i]))
    && (forall j :: 0 <= j < |contacts| ==> HasNumber(r, contacts[j].phoneNumber))
  }

  /** Any enumeration of the dictionary's values is such a list. */
  lemma EnumerationUnduplicated(contacts: seq<DeviceContact>, unique: map<string, DeviceContact>, r: seq<DeviceContact>)
    requires Deduplicated(contacts, |contacts|, unique) && ListsValues(unique, unique.Keys, r)
    ensures Unduplicated(contacts, r)
  {
  }

  method DeduplicateContacts(contacts: seq<DeviceContact>, less: NameOrder) returns (r: seq<DeviceContact>)
    ensures Unduplicated(contacts, r)
    ensures IsStrictOrder(less) ==> SortedByName(less, r)
  {
    var uniqueContacts := CollectUnique(contacts);
    assert forall p :: p in uniqueContacts ==> KeptFor(contacts, |contacts|, p, uniqueContacts[p]);
    r := Arrange(uniqueContacts, less);
    EnumerationUnduplicated(contacts, uniqueContacts, r);
  }

  // ---------------------------------------------------------------- hash table

  /** hashPhoneNumber: no hash for an empty number. */
  function HashOf(h: string -> string, number: string): Option<string> {
    if number == [] then None else Some(h(number))
  }

  ghost predicate HashesTo(h: string -> string, c: DeviceContact, k: string) {
    HashOf(h, c.phoneNumber) == Some(k)
  }

  /** c is the last of the first n contacts whose number hashes to k. */
  ghost predicate LastWith(h: string -> string, contacts: seq<DeviceContact>, n: nat, k: string, c: DeviceContact)
    requires n <= |contacts|
  {
    exists i :: 0 <= i < n && contacts[i] == c && HashesTo(h, c, k)
                && forall j :: i < j < n ==> !HashesTo(h, contacts[j], k)
  }

  /** The table maps the hash of every number to the last contact that has it, and nothing else. */
  ghost predicate HashTable(h: string -> string, contacts: seq<DeviceContact>, n: nat,
                            mapping: map<string, DeviceContact>)
    requires n <= |contacts|
  {
    && (forall i, k :: 0 <= i < n && HashesTo(h, contacts[i], k) ==> k in mapping)
    && (forall k :: k in mapping ==> LastWith(h, contacts, n, k, mapping[k]))
  }

  lemma TableStep(h: string -> string, contacts: seq<DeviceContact>, n: nat, mapping: map<string, DeviceContact>)
    requires n < |contacts| && HashTable(h, contacts, n, mapping)
    ensures HashOf(h, contacts[n].phoneNumber).None? ==> HashTable(h, contacts, n + 1, mapping)
    ensures HashOf(h, contacts[n].phoneNumber).Some? ==>
              HashTable(h, contacts, n + 1, mapping[HashOf(h, contacts[n].phoneNumber).value := contacts[n]])
  {
    forall k | k in mapping && !HashesTo(h, contacts[n], k)
      ensures LastWith(h, contacts, n + 1, k, mapping[k])
    {
      var i :| 0 <= i < n && contacts[i] == mapping[k] && HashesTo(h, mapping[k], k)
               && forall j :: i < j < n ==> !HashesTo(h, contacts[j], k);
    }
    forall k | HashesTo(h, contacts[n], k)
      ensures LastWith(h, contacts, n + 1, k, contacts[n])
    {
    }
  }

  method CreateHashMapping(h: string -> string, contacts: seq<DeviceContact>)
    returns (mapping: map<string, DeviceContact>)
    ensures HashTable(h, contacts, |contacts|, mapping)
  {
    mapping := map[];
    for n := 0 to |contacts|
      invariant HashTable(h, contacts, n, mapping)
    {
      TableStep(h, contacts, n, mapping);
      var hash := HashOf(h, contacts[n].phoneNumber);
      if hash.Some? {
        mapping := mapping[hash.value := contacts[n]];
      }
    }
  }

  ghost predicate CollisionFree(h: string -> string) {
    forall x, y :: h(x) == h(y) ==> x == y
  }

  /** After deduplication, and when the hash has no collision, no contact with a number is lost. */
  lemma DistinctNumbersAllListed(h: string -> string, book: seq<DeviceContact>, contacts: seq<DeviceContact>,
                                 mapping: map<string, DeviceContact>, i: nat)
    requires CollisionFree(h) && Unduplicated(book, contacts)
    requires HashTable(h, contacts, |contacts|, mapping) && i < |contacts| && contacts[i].phoneNumber != []
    ensures h(contacts[i].phoneNumber) in mapping && mapping[h(contacts[i].phoneNumber)] == contacts[i]
  {
  }

  ghost predicate SomeNumber(contacts: seq<DeviceContact>) {
    exists i :: 0 <= i < |contacts| && contacts[i].phoneNumber != []
  }

  /** The table is empty exactly when no contact has a number. */
  lemma EmptyTable(h: string -> string, contacts: seq<DeviceContact>, mapping: map<string, DeviceContact>)
    requires HashTable(h, contacts, |contacts|, mapping)
    ensures mapping == map[] <==> !SomeNumber(contacts)
  {
    if i :| 0 <= i < |contacts| && contacts[i].phoneNumber != [] {
      assert HashesTo(h, contacts[i], h(contacts[i].phoneNumber));
      assert h(contacts[i].phoneNumber) in mapping;
    }
    forall k | k in mapping
      ensures SomeNumber(contacts)
    {
      assert LastWith(h, contacts, |contacts|, k, mapping[k]);
    }
    assert mapping.Keys == {} ==> mapping == map[];
  }

  // ---------------------------------------------------------------- discovery

  /** What the server knows about one hash. */
  type Directory = string -> seq<ServerUser>

  /** Every user returned for a hash carries that hash. */
  ghost predicate Honest(server: Directory) {
    forall k, i :: 0 <= i < |server(k)| ==> server(k)[i].phoneHash == k
  }

  /** The server answers a request hash by hash. */
  function CheckUsers(server: Directory, hashes: seq<string>): seq<ServerUser> {
    if hashes == [] then [] else server(hashes[0]) + CheckUsers(server, hashes[1..])
  }

  function Register(u: ServerUser, c: DeviceContact): RegisteredContact {
    RegisteredContact(u.userId, c.displayName, c.phoneNumber, u.phoneHash, c.avatarUri)
  }

  function MapToRegistered(users: seq<ServerUser>, mapping: map<string, DeviceContact>): seq<RegisteredContact> {
    if users == [] then []
    else
      var rest := MapToRegistered(users[1..], mapping);
      if users[0].phoneHash in mapping then [Register(users[0], mapping[users[0].phoneHash])] + rest else rest
  }

  /** The contacts found for each of the given hashes, one hash after the other. */
  function Found(server: Directory, mapping: map<string, DeviceContact>, hashes: seq<string>): seq<RegisteredContact> {
    if hashes == [] then [] else MapToRegistered(server(hashes[0]), mapping) + Found(server, mapping, hashes[1..])
  }

  lemma {:induction false} MapAppend(a: seq<ServerUser>, b: seq<ServerUser>, mapping: map<string, DeviceContact>)
    ensures MapToRegistered(a + b, mapping) == MapToRegistered(a, mapping) + MapToRegistered(b, mapping)
  {
    if a == [] {
      assert a + b == b;
    } else {
      MapAppend(a[1..], b, mapping);
      assert (a + b)[1..] == a[1..] + b;
    }
  }

  lemma {:induction false} SingleIsFound(server: Directory, mapping: map<string, DeviceContact>, hashes: seq<string>)
    ensures MapToRegistered(CheckUsers(server, hashes), mapping) == Found(server, mapping, hashes)
  {
    if hashes != [] {
      SingleIsFound(server, mapping, hashes[1..]);
      MapAppend(server(hashes[0]), CheckUsers(server, hashes[1..]), mapping);
    }
  }

  lemma {:induction false} MapAgrees(users: seq<ServerUser>, m1: map<string, DeviceContact>,
                                     m2: map<string, DeviceContact>, k: string)
    requires (forall i :: 0 <= i < |users| ==> users[i].phoneHash == k) && k in m1 && k in m2 && m1[k] == m2[k]
    ensures MapToRegistered(users, m1) == MapToRegistered(users, m2)
  {
    if users != [] {
      MapAgrees(users[1..], m1, m2, k);
    }
  }

  /** For an honest server a table restricted to the asked hashes finds the same contacts. */
  lemma {:induction false} RestrictedFound(server: Directory, mapping: map<string, DeviceContact>,
                                           part: map<string, DeviceContact>, hashes: seq<string>)
    requires Honest(server)
    requires forall k :: k in hashes ==> k in mapping && k in part && part[k] == mapping[k]
    ensures Found(server, part, hashes) == Found(server, mapping, hashes)
  {
    if hashes != [] {
      var k := hashes[0];
      assert k in hashes && forall x :: x in hashes[1..] ==> x in hashes;
      RestrictedFound(server, mapping, part, hashes[1..]);
      MapAgrees(server(k), part, mapping, k);
    }
  }

  lemma Reassociate<T>(x: seq<T>, y: seq<T>, z: seq<T>)
    ensures x + (y + z) == x + y + z
  {
  }

  lemma {:induction false} FoundAppend(server: Directory, mapping: map<string, DeviceContact>, a: seq<string>,
                                       b: seq<string>)
    ensures Found(server, mapping, a + b) == Found(server, mapping, a) + Found(server, mapping, b)
  {
    if a == [] {
      assert a + b == b;
    } else {
      var rest := a[1..];
      FoundAppend(server, mapping, rest, b);
      assert (a + b)[0] == a[0] && (a + b)[1..] == rest + b;
      Reassociate(MapToRegistered(server(a[0]), mapping), Found(server, mapping, rest), Found(server, mapping, b));
    }
  }

  /** Enumerating the same hashes in another order finds the same multiset of contacts. */
  lemma {:induction false} FoundPermuted(server: Directory, mapping: map<string, DeviceContact>, a: seq<string>,
                                         b: seq<string>)
    requires multiset(a) == multiset(b)
    ensures multiset(Found(server, mapping, a)) == multiset(Found(server, mapping, b))
  {
    if a == [] {
      assert multiset(b) == multiset{} && |multiset(b)| == |b|;
    } else {
      var i := RestPermuted(a, b);
      FoundPermuted(server, mapping, a[1..], b[..i] + b[i + 1..]);
      FoundWithout(server, mapping, a, 0);
      FoundWithout(server, mapping, b, i);
      assert a[..0] + a[1..] == a[1..];
    }
  }

  /** The first element of a found in b, and the same rest in both. */
  lemma RestPermuted(a: seq<string>, b: seq<string>) returns (i: nat)
    requires a != [] && multiset(a) == multiset(b)
    ensures i < |b| && b[i] == a[0] && multiset(a[1..]) == multiset(b[..i] + b[i + 1..])
  {
    var k := a[0];
    assert k in multiset(a) && k in multiset(b) && k in b;
    i :| 0 <= i < |b| && b[i] == k;
    RemoveOne(a, 0);
    RemoveOne(b, i);
    assert a[..0] + a[1..] == a[1..];
    CancelOne(multiset(a[1..]), multiset(b[..i] + b[i + 1..]), k);
  }

  lemma CancelOne<T>(x: multiset<T>, y: multiset<T>, k: T)
    requires x + multiset{k} == y + multiset{k}
    ensures x == y
  {
    assert x == (x + multiset{k}) - multiset{k};
    assert y == (y + multiset{k}) - multiset{k};
  }

  lemma RemoveOne(s: seq<string>, i: nat)
    requires i < |s|
    ensures multiset(s) == multiset(s[..i] + s[i + 1..]) + multiset{s[i]}
  {
    assert s == s[..i] + [s[i]] + s[i + 1..];
  }

  /** What is found splits into what one hash contributes and what the others do. */
  lemma FoundWithout(server: Directory, mapping: map<string, DeviceContact>, s: seq<string>, i: nat)
    requires i < |s|
    ensures multiset(Found(server, mapping, s))
            == multiset(Found(server, mapping, s[..i] + s[i + 1..])) + multiset(MapToRegistered(server(s[i]), mapping))
  {
    assert s == s[..i] + s[i..];
    FoundAppend(server, mapping, s[..i], s[i..]);
    FoundAppend(server, mapping, s[..i], s[i + 1..]);
    assert s[i..][1..] == s[i + 1..];
  }

  datatype Report = Report(contacts: seq<RegisteredContact>, totalHashesChecked: nat, registeredCount: nat)

  datatype Discovery = Discovered(report: Report) | HashingFailed | NetworkFailed

  /** discoverRegisteredUsers; `hashes` is the enumeration of the table's keys, `answered` whether the
      request is answered. */
  function DiscoverRegisteredUsers(server: Directory, contacts: seq<DeviceContact>, mapping: map<string, DeviceContact>,
                                   hashes: seq<string>, answered: bool): (r: Discovery)
    ensures r.HashingFailed? <==> contacts != [] && mapping == map[]
    ensures r.NetworkFailed? <==> contacts != [] && mapping != map[] && !answered
    ensures contacts == [] ==> r == Discovered(Report([], 0, 0))
    ensures r.Discovered? && contacts != [] ==>
              var found := Found(server, mapping, hashes);
              r.report == Report(found, |mapping|, |found|)
  {
    if contacts == [] then Discovered(Report([], 0, 0))
    else if mapping == map[] then HashingFailed
    else if !answered then NetworkFailed
    else
      SingleIsFound(server, mapping, hashes);
      var found := MapToRegistered(CheckUsers(server, hashes), mapping);
      Discovered(Report(found, |mapping|, |found|))
  }

  /** chunked(into:) */
  function Chunked(s: seq<string>, size: nat): (r: seq<seq<string>>)
    requires 0 < size
  {
    if s == [] then [] else [s[..Min(size, |s|)]] + Chunked(s[Min(size, |s|)..], size)
  }

  function Flatten(ss: seq<seq<string>>): seq<string> {
    if ss == [] then [] else ss[0] + Flatten(ss[1..])
  }

  /** Chunking loses and reorders nothing, no chunk is empty or too long, and only the last can be short. */
  lemma {:induction false} ChunkedSpec(s: seq<string>, size: nat)
    requires 0 < size
    ensures Flatten(Chunked(s, size)) == s
    ensures forall i :: 0 <= i < |Chunked(s, size)| ==> 0 < |Chunked(s, size)[i]| <= size
    ensures forall i :: 0 <= i < |Chunked(s, size)| - 1 ==> |Chunked(s, size)[i]| == size
    decreases |s|
  {
    if s != [] {
      ChunkedSpec(s[Min(size, |s|)..], size);
      assert s == s[..Min(size, |s|)] + s[Min(size, |s|)..];
    }
  }

  /** Chunk i is the slice from position size * i on. */
  lemma {:induction false} ChunkedAt(s: seq<string>, size: nat, i: nat, from: nat)
    requires 0 < size && i < |Chunked(s, size)| && from == size * i
    ensures from < |s|
    ensures Chunked(s, size)[i] == s[from..Min(from + size, |s|)]
    decreases |s|
  {
    if i > 0 {
      assert size * (i - 1) == from - size;
      ChunkedAt(s[Min(size, |s|)..], size, i - 1, from - size);
    }
  }

  lemma {:induction false} FlattenAppend(ss: seq<seq<string>>, n: nat)
    requires n < |ss|
    ensures Flatten(ss[..n + 1]) == Flatten(ss[..n]) + ss[n]
  {
    if n == 0 {
      assert ss[..1][1..] == [] && ss[..0] == [];
    } else {
      FlattenAppend(ss[1..], n - 1);
      assert ss[..n + 1][1..] == ss[1..][..n] && ss[..n][1..] == ss[1..][..n - 1];
    }
  }

  lemma {:induction false} FlattenMembers(ss: seq<seq<string>>, n: nat, k: string)
    requires n < |ss| && k in ss[n]
    ensures k in Flatten(ss)
  {
    if n > 0 {
      FlattenMembers(ss[1..], n - 1, k);
    }
  }

  /** What is reported for one batch: the contacts found through a table of just its hashes. */
  function BatchReport(server: Directory, mapping: map<string, DeviceContact>, batch: seq<string>): Report {
    var batchMapping := map k | k in batch && k in mapping :: mapping[k];
    var found := MapToRegistered(CheckUsers(server, batch), batchMapping);
    Report(found, |batch|, |found|)
  }

  function BatchReports(server: Directory, mapping: map<string, DeviceContact>,
                        batches: seq<seq<string>>): (r: seq<Report>)
    ensures |r| == |batches|
  {
    seq(|batches|, i requires 0 <= i < |batches| => BatchReport(server, mapping, batches[i]))
  }

  function AllContacts(reports: seq<Report>): seq<RegisteredContact> {
    if reports == [] then [] else AllContacts(reports[..|reports| - 1]) + reports[|reports| - 1].contacts
  }

  /** What the stream yields, and whether it finishes or throws. */
  datatype Stream = Stream(yielded: seq<Report>, finished: bool)

  /** discoverRegisteredUsersBatched; the network answers the first `answered` requests. */
  function BatchedStream(server: Directory, mapping: map<string, DeviceContact>, hashes: seq<string>, size: nat,
                         answered: nat): Stream
    requires 0 < size
  {
    var batches := Chunked(hashes, size);
    if answered < |batches| then Stream(BatchReports(server, mapping, batches[..answered]), false)
    else
      var reports := BatchReports(server, mapping, batches);
      var all := AllContacts(reports);
      Stream(reports + [Report(all, |mapping|, |all|)], true)
  }

  lemma ReportsOneMore(server: Directory, mapping: map<string, DeviceContact>, batches: seq<seq<string>>, n: nat)
    requires n < |batches|
    ensures
      var before, after := BatchReports(server, mapping, batches[..n]), BatchReports(server, mapping, batches[..n + 1]);
      && after == before + [BatchReport(server, mapping, batches[n])]
      && AllContacts(after) == AllContacts(before) + BatchReport(server, mapping, batches[n]).contacts
  {
  }

  /** The loop over the batches. */
  method DiscoverBatched(server: Directory, mapping: map<string, DeviceContact>, hashes: seq<string>, batchSize: nat,
                         answered: nat) returns (r: Stream)
    requires 0 < batchSize
    ensures r == BatchedStream(server, mapping, hashes, batchSize, answered)
  {
    var batches := Chunked(hashes, batchSize);
    var allRegisteredContacts: seq<RegisteredContact> := [];
    var yielded: seq<Report> := [];
    for n := 0 to |batches|
      invariant n <= answered
      invariant yielded == BatchReports(server, mapping, batches[..n])
      invariant allRegisteredContacts == AllContacts(yielded)
    {
      if n == answered {
        return Stream(yielded, false);
      }
      ReportsOneMore(server, mapping, batches, n);
      var report := BatchReport(server, mapping, batches[n]);
      allRegisteredContacts := allRegisteredContacts + report.contacts;
      yielded := yielded + [report];
    }
    assert batches[..|batches|] == batches;
    return Stream(yielded + [Report(allRegisteredContacts, |mapping|, |allRegisteredContacts|)], true);
  }

  /** A batch with its restricted table finds what the full table finds for its hashes. */
  lemma BatchIsFound(server: Directory, mapping: map<string, DeviceContact>, batch: seq<string>)
    requires Honest(server) && forall k :: k in batch ==> k in mapping
    ensures BatchReport(server, mapping, batch).contacts == Found(server, mapping, batch)
  {
    var batchMapping := map k | k in batch && k in mapping :: mapping[k];
    SingleIsFound(server, batchMapping, batch);
    RestrictedFound(server, mapping, batchMapping, batch);
  }

  /** The reports of the first n batches hold what is found for their hashes. */
  ghost predicate FoundSoFar(server: Directory, mapping: map<string, DeviceContact>, batches: seq<seq<string>>,
                             n: nat) {
    && n <= |batches|
    && AllContacts(BatchReports(server, mapping, batches[..n])) == Found(server, mapping, Flatten(batches[..n]))
  }

  lemma FoundOneMore(server: Directory, mapping: map<string, DeviceContact>, batches: seq<seq<string>>, n: nat)
    requires Honest(server) && n < |batches| && FoundSoFar(server, mapping, batches, n)
    requires forall k :: k in batches[n] ==> k in mapping
    ensures FoundSoFar(server, mapping, batches, n + 1)
  {
    ReportsOneMore(server, mapping, batches, n);
    FlattenAppend(batches, n);
    BatchIsFound(server, mapping, batches[n]);
    FoundAppend(server, mapping, Flatten(batches[..n]), batches[n]);
  }

  lemma {:induction false} BatchesAreFound(server: Directory, mapping: map<string, DeviceContact>,
                                           batches: seq<seq<string>>, n: nat)
    requires Honest(server) && n <= |batches| && forall k :: k in Flatten(batches) ==> k in mapping
    ensures FoundSoFar(server, mapping, batches, n)
  {
    if n == 0 {
      assert batches[..0] == [];
    } else {
      BatchesAreFound(server, mapping, batches, n - 1);
      forall k | k in batches[n - 1]
        ensures k in mapping
      {
        FlattenMembers(batches, n - 1, k);
      }
      FoundOneMore(server, mapping, batches, n - 1);
    }
  }

  /** The last report of a finished stream holds the contacts of all hashes, in order of the hashes. */
  lemma StreamIsFound(server: Directory, mapping: map<string, DeviceContact>, hashes: seq<string>, size: nat,
                      answered: nat)
    requires Honest(server) && 0 < size && (forall k :: k in hashes ==> k in mapping)
    requires answered >= |Chunked(hashes, size)|
    ensures
      var r, found := BatchedStream(server, mapping, hashes, size, answered), Found(server, mapping, hashes);
      r.finished && r.yielded[|r.yielded| - 1] == Report(found, |mapping|, |found|)
  {
    var batches := Chunked(hashes, size);
    ChunkedSpec(hashes, size);
    BatchesAreFound(server, mapping, batches, |batches|);
    assert batches[..|batches|] == batches;
  }

  /** Before the last report there is one for each batch whose request is answered: what is found for its
      slice of the hashes, and how many that were. */
  lemma StreamAt(server: Directory, mapping: map<string, DeviceContact>, hashes: seq<string>, size: nat,
                 answered: nat, i: nat)
    requires Honest(server) && 0 < size && (forall k :: k in hashes ==> k in mapping)
    ensures
      var r, n := BatchedStream(server, mapping, hashes, size, answered), |Chunked(hashes, size)|;
      && (r.finished <==> n <= answered)
      && |r.yielded| == (if r.finished then n + 1 else answered)
      && (i < n && i < answered ==>
            && 0 <= size * i < |hashes|
            && var slice := hashes[size * i..Min(size * i + size, |hashes|)];
               var found := Found(server, mapping, slice);
               r.yielded[i] == Report(found, |slice|, |found|))
  {
    var batches := Chunked(hashes, size);
    if i < |batches| && i < answered {
      ChunkedAt(hashes, size, i, size * i);
      ChunkedSpec(hashes, size);
      var r := BatchedStream(server, mapping, hashes, size, answered);
      assert r.yielded[i] == BatchReport(server, mapping, batches[i]);
      forall k | k in batches[i]
        ensures k in mapping
      {
        FlattenMembers(batches, i, k);
      }
      BatchIsFound(server, mapping, batches[i]);
    }
  }

  /** Both forms succeed and report the same contacts, in whatever order, and the same numbers. */
  ghost predicate SameOutcome(single: Discovery, batched: Stream) {
    && single.Discovered? && batched.finished && batched.yielded != []
    && var last := batched.yielded[|batched.yielded| - 1];
       && multiset(last.contacts) == multiset(single.report.contacts)
       && last.totalHashesChecked == single.report.totalHashesChecked
       && last.registeredCount == single.report.registeredCount
  }

  lemma FoundSize(server: Directory, mapping: map<string, DeviceContact>, a: seq<string>, b: seq<string>)
    requires multiset(a) == multiset(b)
    ensures multiset(Found(server, mapping, a)) == multiset(Found(server, mapping, b))
    ensures |Found(server, mapping, a)| == |Found(server, mapping, b)|
  {
    FoundPermuted(server, mapping, a, b);
    assert |multiset(Found(server, mapping, a))| == |Found(server, mapping, a)|;
    assert |multiset(Found(server, mapping, b))| == |Found(server, mapping, b)|;
  }

  /** For every batch size, every honest server and any two enumerations of the table, discovery in
      batches and in a single request agree if and only if the requests are answered and it is not the
      case that there are contacts but none of them has a number. */
  lemma BatchedEqualsSingle(h: string -> string, server: Directory, contacts: seq<DeviceContact>,
                            mapping: map<string, DeviceContact>, single: seq<string>, batched: seq<string>, size: nat,
                            singleAnswered: bool, answered: nat)
    requires Honest(server) && 0 < size && HashTable(h, contacts, |contacts|, mapping)
    requires multiset(single) == multiset(mapping.Keys) == multiset(batched)
    ensures SameOutcome(DiscoverRegisteredUsers(server, contacts, mapping, single, singleAnswered),
                        BatchedStream(server, mapping, batched, size, answered))
            <==> && answered >= |Chunked(batched, size)|
                 && (contacts == [] || (singleAnswered && SomeNumber(contacts)))
  {
    EmptyTable(h, contacts, mapping);
    if answered >= |Chunked(batched, size)| {
      assert forall k :: k in batched ==> k in multiset(batched);
      StreamIsFound(server, mapping, batched, size, answered);
      FoundSize(server, mapping, batched, single);
      SingleIsFound(server, mapping, single);
      if contacts == [] {
        assert mapping.Keys == {} && |multiset(batched)| == |batched|;
      }
    }
  }

  // ---------------------------------------------------------------- from the address book

  /** What discovery is for, contact by contact: every user the server knows under the contact's hash. */
  function Expected(h: string -> string, server: Directory, contacts: seq<DeviceContact>): seq<RegisteredContact> {
    if contacts == [] then []
    else RegisterAll(server, HashOf(h, contacts[0].phoneNumber), contacts[0]) + Expected(h, server, contacts[1..])
  }

  function RegisterAll(server: Directory, hash: Option<string>, c: DeviceContact): seq<RegisteredContact> {
    if hash.None? then []
    else
      var users := server(hash.value);
      seq(|users|, i requires 0 <= i < |users| =>
        RegisteredContact(users[i].userId, c.displayName, c.phoneNumber, hash.value, c.avatarUri))
  }

  function HashList(h: string -> string, contacts: seq<DeviceContact>): seq<string> {
    if contacts == [] then []
    else if contacts[0].phoneNumber == [] then HashList(h, contacts[1..])
    else [h(contacts[0].phoneNumber)] + HashList(h, contacts[1..])
  }

  lemma {:induction false} MapAll(users: seq<ServerUser>, mapping: map<string, DeviceContact>, k: string)
    requires (forall i :: 0 <= i < |users| ==> users[i].phoneHash == k) && k in mapping
    ensures MapToRegistered(users, mapping)
            == seq(|users|, i requires 0 <= i < |users| => Register(users[i], mapping[k]))
  {
    if users != [] {
      MapAll(users[1..], mapping, k);
      var rest := seq(|users| - 1, i requires 0 <= i < |users| - 1 => Register(users[1..][i], mapping[k]));
      assert MapToRegistered(users, mapping) == [Register(users[0], mapping[k])] + rest;
    }
  }

  lemma RegisterIsMapped(server: Directory, mapping: map<string, DeviceContact>, k: string, c: DeviceContact)
    requires Honest(server) && k in mapping && mapping[k] == c
    ensures RegisterAll(server, Some(k), c) == MapToRegistered(server(k), mapping)
  {
    MapAll(server(k), mapping, k);
    var users := server(k);
    forall i | 0 <= i < |users|
      ensures RegisterAll(server, Some(k), c)[i] == Register(users[i], c)
    {
    }
  }

  lemma FoundCons(server: Directory, mapping: map<string, DeviceContact>, k: string, rest: seq<string>)
    ensures Found(server, mapping, [k] + rest) == MapToRegistered(server(k), mapping) + Found(server, mapping, rest)
  {
    assert ([k] + rest)[1..] == rest;
  }

  /** Every contact with a number is found under its hash. */
  ghost predicate AllListed(h: string -> string, contacts: seq<DeviceContact>, mapping: map<string, DeviceContact>) {
    forall i :: 0 <= i < |contacts| && contacts[i].phoneNumber != [] ==>
                  h(contacts[i].phoneNumber) in mapping && mapping[h(contacts[i].phoneNumber)] == contacts[i]
  }

  lemma AllListedTail(h: string -> string, contacts: seq<DeviceContact>, mapping: map<string, DeviceContact>)
    requires contacts != [] && AllListed(h, contacts, mapping)
    ensures AllListed(h, contacts[1..], mapping)
    ensures
      var k := h(contacts[0].phoneNumber);
      contacts[0].phoneNumber != [] ==> k in mapping && mapping[k] == contacts[0]
  {
  }

  lemma {:induction false} ExpectedIsFound(h: string -> string, server: Directory, contacts: seq<DeviceContact>,
                                           mapping: map<string, DeviceContact>)
    requires Honest(server) && AllListed(h, contacts, mapping)
    ensures Expected(h, server, contacts) == Found(server, mapping, HashList(h, contacts))
  {
    if contacts != [] {
      var c, rest := contacts[0], contacts[1..];
      AllListedTail(h, contacts, mapping);
      ExpectedIsFound(h, server, rest, mapping);
      if c.phoneNumber != [] {
        RegisterIsMapped(server, mapping, h(c.phoneNumber), c);
        FoundCons(server, mapping, h(c.phoneNumber), HashList(h, rest));
      }
    }
  }

  lemma {:induction false} HashListMembers(h: string -> string, contacts: seq<DeviceContact>, k: string)
    ensures k in HashList(h, contacts) <==> exists i :: 0 <= i < |contacts| && HashesTo(h, contacts[i], k)
  {
    if contacts != [] {
      var rest := contacts[1..];
      HashListMembers(h, rest, k);
      if HashesTo(h, contacts[0], k) {
        assert k in HashList(h, contacts);
      } else if i :| 0 <= i < |contacts| && HashesTo(h, contacts[i], k) {
        assert HashesTo(h, rest[i - 1], k);
      }
      if i :| 0 <= i < |rest| && HashesTo(h, rest[i], k) {
        assert HashesTo(h, contacts[i + 1], k);
      }
    }
  }

  lemma {:induction false} HashListDistinct(h: string -> string, contacts: seq<DeviceContact>, k: string)
    requires CollisionFree(h) && DistinctNumbers(contacts)
    ensures multiset(HashList(h, contacts))[k] <= 1
  {
    if contacts != [] {
      var rest := contacts[1..];
      HashListDistinct(h, rest, k);
      if HashesTo(h, contacts[0], k) {
        HashListMembers(h, rest, k);
        assert k !in multiset(HashList(h, rest));
      }
    }
  }

  /** Whatever enumeration the dictionary gives, its keys are the hashes of the contacts, each once. */
  lemma KeysAreHashes(h: string -> string, contacts: seq<DeviceContact>, mapping: map<string, DeviceContact>)
    requires CollisionFree(h) && DistinctNumbers(contacts) && HashTable(h, contacts, |contacts|, mapping)
    ensures multiset(HashList(h, contacts)) == multiset(mapping.Keys)
  {
    forall k: string
      ensures multiset(HashList(h, contacts))[k] == multiset(mapping.Keys)[k]
    {
      HashListMembers(h, contacts, k);
      HashListDistinct(h, contacts, k);
      assert k in HashList(h, contacts) <==> k in multiset(HashList(h, contacts));
      if k in mapping {
        assert LastWith(h, contacts, |contacts|, k, mapping[k]);
      }
    }
  }

  /** r names user u of the server and contact c of the address book. */
  ghost predicate Names(h: string -> string, u: ServerUser, c: DeviceContact, r: RegisteredContact) {
    && r.userId == u.userId && r.phoneHash == h(c.phoneNumber)
    && r.displayName == c.displayName && r.phoneNumber == c.phoneNumber && r.avatarUri == c.avatarUri
  }

  /** r names a user whom the server knows under the hash of one of the contacts that has a number. */
  ghost predicate IsEntry(h: string -> string, server: Directory, contacts: seq<DeviceContact>, r: RegisteredContact) {
    exists c, u :: c in contacts && c.phoneNumber != [] && u in server(h(c.phoneNumber)) && Names(h, u, c, r)
  }

  lemma RegisteredMembers(h: string -> string, server: Directory, c: DeviceContact, r: RegisteredContact)
    ensures r in RegisterAll(server, HashOf(h, c.phoneNumber), c)
            <==> c.phoneNumber != [] && exists u :: u in server(h(c.phoneNumber)) && Names(h, u, c, r)
  {
    if c.phoneNumber != [] {
      var users, all := server(h(c.phoneNumber)), RegisterAll(server, HashOf(h, c.phoneNumber), c);
      if u :| u in users && Names(h, u, c, r) {
        var i :| 0 <= i < |users| && users[i] == u;
        assert all[i] == r;
      }
      if r in all {
        var i :| 0 <= i < |all| && all[i] == r;
        assert users[i] in users && Names(h, users[i], c, r);
      }
    }
  }

  /** Exactly the entries, field by field. */
  lemma {:induction false} ExpectedMembers(h: string -> string, server: Directory, contacts: seq<DeviceContact>,
                                           r: RegisteredContact)
    ensures r in Expected(h, server, contacts) <==> IsEntry(h, server, contacts, r)
  {
    if contacts != [] {
      var c, rest := contacts[0], contacts[1..];
      RegisteredMembers(h, server, c, r);
      ExpectedMembers(h, server, rest, r);
      assert contacts == [c] + rest;
      if d, u :| d in contacts && d.phoneNumber != [] && u in server(h(d.phoneNumber)) && Names(h, u, d, r) {
        assert d == c || d in rest;
      }
    }
  }

  /** What both forms of discovery report, from the address book on: as a multiset what the server knows
      about each contact left by deduplication, and so an entry for exactly the users it knows, with the
      contact's own name, number and picture. */
  ghost predicate IsComplete(h: string -> string, server: Directory, contacts: seq<DeviceContact>, report: Report) {
    && multiset(report.contacts) == multiset(Expected(h, server, contacts))
    && (forall r :: r in report.contacts <==> IsEntry(h, server, contacts, r))
    && report.registeredCount == |report.contacts|
  }

  lemma FoundIsComplete(h: string -> string, server: Directory, book: seq<DeviceContact>, contacts: seq<DeviceContact>,
                        mapping: map<string, DeviceContact>, hashes: seq<string>)
    requires CollisionFree(h) && Honest(server) && Unduplicated(book, contacts)
    requires HashTable(h, contacts, |contacts|, mapping) && multiset(hashes) == multiset(mapping.Keys)
    ensures
      var found := Found(server, mapping, hashes);
      IsComplete(h, server, contacts, Report(found, |mapping|, |found|))
  {
    var found := Found(server, mapping, hashes);
    forall i | 0 <= i < |contacts| && contacts[i].phoneNumber != []
      ensures h(contacts[i].phoneNumber) in mapping && mapping[h(contacts[i].phoneNumber)] == contacts[i]
    {
      DistinctNumbersAllListed(h, book, contacts, mapping, i);
    }
    ExpectedIsFound(h, server, contacts, mapping);
    KeysAreHashes(h, contacts, mapping);
    FoundPermuted(server, mapping, hashes, HashList(h, contacts));
    forall r
      ensures r in found <==> IsEntry(h, server, contacts, r)
    {
      ExpectedMembers(h, server, contacts, r);
      assert r in found <==> r in multiset(found);
      assert r in Expected(h, server, contacts) <==> r in multiset(Expected(h, server, contacts));
    }
  }

  /** The same for the single request, when it is answered. */
  lemma SingleIsComplete(h: string -> string, server: Directory, book: seq<DeviceContact>, contacts: seq<DeviceContact>,
                         mapping: map<string, DeviceContact>, hashes: seq<string>)
    requires CollisionFree(h) && Honest(server) && Unduplicated(book, contacts)
    requires HashTable(h, contacts, |contacts|, mapping) && multiset(hashes) == multiset(mapping.Keys)
    ensures
      var r := DiscoverRegisteredUsers(server, contacts, mapping, hashes, true);
      r.Discovered? ==> IsComplete(h, server, contacts, r.report)
    ensures DiscoverRegisteredUsers(server, contacts, mapping, hashes, true).Discovered?
            <==> contacts == [] || SomeNumber(contacts)
  {
    EmptyTable(h, contacts, mapping);
    FoundIsComplete(h, server, book, contacts, mapping, hashes);
  }

  /** From the address book to the result: after deduplication, with a hash without collisions and an
      honest server, batched discovery with any batch size and any enumeration of the table reports
      exactly what the server knows about each remaining contact. */
  lemma DiscoveryIsComplete(h: string -> string, server: Directory, book: seq<DeviceContact>,
                            contacts: seq<DeviceContact>, mapping: map<string, DeviceContact>,
                            hashes: seq<string>, size: nat)
    requires CollisionFree(h) && Honest(server) && 0 < size && Unduplicated(book, contacts)
    requires HashTable(h, contacts, |contacts|, mapping) && multiset(hashes) == multiset(mapping.Keys)
    ensures
      var r := BatchedStream(server, mapping, hashes, size, |Chunked(hashes, size)|);
      r.finished && IsComplete(h, server, contacts, r.yielded[|r.yielded| - 1])
  {
    assert forall k :: k in hashes ==> k in multiset(hashes);
    StreamIsFound(server, mapping, hashes, size, |Chunked(hashes, size)|);
    FoundIsComplete(h, server, book, contacts, mapping, hashes);
  }
}
