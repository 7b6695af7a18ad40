/** The one keychain all stores share: a dictionary from string tags to records whose writes and
    deletes may fail. A write deletes first and then adds. */
module Keychain {
  import opened Decimal

  /** Key material. Its octets are bit vectors because keys are compared by accumulated exclusive or. */
  type Data = seq<bv8>

  /** What is stored under a tag. The JSON and raw encodings of the metadata are represented by
      the values they encode. */
  datatype Record =
    | Blob(data: Data)
    | Keys(keys: set<string>)
    | IdSet(ids: set<u32>)
    | Number(n: u32)
    | Time(t: int)

  type Items = map<string, Record>

  // ---------------------------------------------------------------- tags

  /** Every item the stores and the keychain manager use. */
  datatype Slot =
    | Session(key: string)
    | SessionList
    | PreKey(id: u32)
    | PreKeyCounter
    | PreKeyIds
    | SignedPreKey(id: u32)
    | SignedPreKeyIds
    | LastRotation
    | IdentityPair
    | PeerIdentity(name: string)
    | RegistrationId
    | MasterKey
    | DatabasePassphrase

  datatype Store = Sessions | PreKeys | SignedPreKeys | Identities | Manager

  function Owner(s: Slot): Store {
    match s
    case Session(_) => Sessions
    case SessionList => Sessions
    case PreKey(_) => PreKeys
    case PreKeyCounter => PreKeys
    case PreKeyIds => PreKeys
    case SignedPreKey(_) => SignedPreKeys
    case SignedPreKeyIds => SignedPreKeys
    case LastRotation => SignedPreKeys
    case IdentityPair => Identities
    case PeerIdentity(_) => Identities
    case RegistrationId => Identities
    case MasterKey => Manager
    case DatabasePassphrase => Manager
  }

  /** The fixed beginning of a tag ... */
  function Head(s: Slot): string {
    match s
    case Session(_) => "session_"
    case SessionList => "session_"
    case PreKey(_) => "prekey_"
    case PreKeyCounter => "prekey_"
    case PreKeyIds => "prekey_"
    case SignedPreKey(_) => "signed_prekey_"
    case SignedPreKeyIds => "signed_prekey_"
    case LastRotation => "signed_prekey_"
    case IdentityPair => "identity_key_"
    case PeerIdentity(_) => "identity_key_"
    case RegistrationId => "local_registration_id"
    case MasterKey => "securechat_master_key"
    case DatabasePassphrase => "database_passphrase"
  }

  /** ... and the rest of it. */
  function Tail(s: Slot): string {
    match s
    case Session(key) => key
    case SessionList => "list"
    case PreKey(id) => Print(id)
    case PreKeyCounter => "counter"
    case PreKeyIds => "ids"
    case SignedPreKey(id) => Print(id)
    case SignedPreKeyIds => "ids"
    case LastRotation => "last_rotation"
    case IdentityPair => "pair"
    case PeerIdentity(name) => name
    case RegistrationId => ""
    case MasterKey => ""
    case DatabasePassphrase => ""
  }

  function Tag(s: Slot): string {
    Head(s) + Tail(s)
  }

  /** The tags as they are written in the keychain. */
  lemma TagsAsWritten(key: string, id: u32, name: string)
    ensures Tag(Session(key)) == "session_" + key && Tag(SessionList) == "session_list"
    ensures Tag(PreKey(id)) == "prekey_" + Print(id) && Tag(PreKeyCounter) == "prekey_counter"
    ensures Tag(PreKeyIds) == "prekey_ids"
    ensures Tag(PeerIdentity(name)) == "identity_key_" + name && Tag(IdentityPair) == "identity_key_pair"
  {
  }

  lemma OtherTagsAsWritten(id: u32)
    ensures Tag(SignedPreKey(id)) == "signed_prekey_" + Print(id) && Tag(SignedPreKeyIds) == "signed_prekey_ids"
    ensures Tag(LastRotation) == "signed_prekey_last_rotation" && Tag(RegistrationId) == "local_registration_id"
    ensures Tag(MasterKey) == "securechat_master_key" && Tag(DatabasePassphrase) == "database_passphrase"
  {
  }

  /** The two ways a slot can share its tag with another one. */
  predicate Ambiguous(s: Slot) {
    s == PeerIdentity("pair") || s == Session("list")
  }

  predicate SameInitials(x: string, y: string) {
    |x| >= 3 && |y| >= 3 && x[0] == y[0] && x[1] == y[1] && x[2] == y[2]
  }

  lemma HeadIsInitial(s: Slot)
    ensures SameInitials(Tag(s), Head(s))
  {
  }

  lemma InitialsDecide(s: Slot, t: Slot)
    requires SameInitials(Head(s), Head(t))
    ensures Head(s) == Head(t)
  {
  }

  lemma HeadsDiffer(s: Slot, t: Slot)
    requires Tag(s) == Tag(t)
    ensures Head(s) == Head(t)
  {
    HeadIsInitial(s);
    HeadIsInitial(t);
    InitialsDecide(s, t);
  }

  lemma NumbersAreNotWords(id: u32)
    ensures IsDigit(Print(id)[0])
  {
  }

  lemma PrintInjective(a: u32, b: u32)
    requires Print(a) == Print(b)
    ensures a == b
  {
    ParseInvertsPrint(a);
    ParseInvertsPrint(b);
  }

  lemma TailsAgree(s: Slot, t: Slot)
    requires Head(s) == Head(t) && Tail(s) == Tail(t) && s != t
    ensures {s, t} == {IdentityPair, PeerIdentity("pair")} || {s, t} == {SessionList, Session("list")}
  {
    if s.PreKey? || s.SignedPreKey? {
      NumbersAreNotWords(s.id);
    }
    if t.PreKey? || t.SignedPreKey? {
      NumbersAreNotWords(t.id);
    }
    if (s.PreKey? && t.PreKey?) || (s.SignedPreKey? && t.SignedPreKey?) {
      PrintInjective(s.id, t.id);
    }
  }

  /** All tag families are injective and pairwise disjoint. The only clashes are the peer name
      `pair` with the local identity key, and a session key `list` with the session index. */
  lemma TagsClashExactly(s: Slot, t: Slot)
    ensures Tag(s) == Tag(t) <==>
              s == t || {s, t} == {IdentityPair, PeerIdentity("pair")} || {s, t} == {SessionList, Session("list")}
  {
    if Tag(s) == Tag(t) && s != t {
      HeadsDiffer(s, t);
      var n := |Head(s)|;
      assert Tag(s)[n..] == Tail(s) && Tag(t)[n..] == Tail(t);
      TailsAgree(s, t);
    }
    if {s, t} == {IdentityPair, PeerIdentity("pair")} {
      assert s in {IdentityPair, PeerIdentity("pair")} && t in {IdentityPair, PeerIdentity("pair")};
    }
    if {s, t} == {SessionList, Session("list")} {
      assert s in {SessionList, Session("list")} && t in {SessionList, Session("list")};
    }
  }

  lemma TagInjective(s: Slot, t: Slot)
    requires Tag(s) == Tag(t) && !Ambiguous(s) && !Ambiguous(t)
    ensures s == t
  {
    TagsClashExactly(s, t);
    assert {s, t} == {IdentityPair, PeerIdentity("pair")} ==> PeerIdentity("pair") in {s, t};
    assert {s, t} == {SessionList, Session("list")} ==> Session("list") in {s, t};
  }

  // ---------------------------------------------------------------- operations with failure

  /** How the system answers the delete and the add inside one write. */
  datatype Fate = Fate(deleteOk: bool, addOk: bool)

  const FINE := Fate(true, true)

  datatype Written = Written(items: Items, ok: bool)

  /** storeDataInKeychain: a failed delete is ignored, but then an existing item makes the add fail;
      a failed add after a delete leaves the tag empty. */
  function Put(items: Items, tag: string, r: Record, f: Fate): Written {
    var rest := if f.deleteOk then items - {tag} else items;
    if tag in rest || !f.addOk then Written(rest, false) else Written(rest[tag := r], true)
  }

  function Drop(items: Items, tag: string, ok: bool): Items {
    if ok then items - {tag} else items
  }

  datatype Loaded = Found(r: Record) | Missing | LoadFailed

  function Load(items: Items, tag: string, ok: bool): Loaded {
    if !ok then LoadFailed else if tag in items then Found(items[tag]) else Missing
  }

  class KeychainManager {
    var items: Items

    constructor ()
      ensures items == map[]
    {
      items := map[];
    }

    method DeleteData(tag: string, ok: bool) returns (thrown: bool)
      modifies this
      ensures items == Drop(old(items), tag, ok) && thrown == !ok
      ensures forall t :: t in items <==> t in old(items) && (thrown || t != tag)
      ensures forall t :: t in items ==> items[t] == old(items)[t]
    {
      if ok {
        items := items - {tag};
      }
      thrown := !ok;
    }

    method StoreData(r: Record, tag: string, f: Fate) returns (thrown: bool)
      modifies this
      ensures items == Put(old(items), tag, r, f).items && thrown == !Put(old(items), tag, r, f).ok
      ensures thrown <==> !f.addOk || (!f.deleteOk && tag in old(items))
      ensures !thrown ==> items == old(items)[tag := r]
      ensures thrown ==> items == if f.deleteOk then old(items) - {tag} else old(items)
    {
      var ignored := DeleteData(tag, f.deleteOk);
      if tag in items || !f.addOk {
        return true;
      }
      items := items[tag := r];
      thrown := false;
      assert (old(items) - {tag})[tag := r] == old(items)[tag := r];
    }

    method LoadData(tag: string, ok: bool) returns (r: Loaded)
      ensures r == Load(items, tag, ok)
      ensures r == if !ok then LoadFailed else if tag in items then Found(items[tag]) else Missing
    {
      if !ok {
        return LoadFailed;
      }
      r := if tag in items then Found(items[tag]) else Missing;
    }
  }

  // ---------------------------------------------------------------- the typed view of one store

  /** The items of one store, keyed by slot instead of tag. */
  ghost function Typed(items: Items, o: Store): imap<Slot, Record> {
    imap s: Slot | Owner(s) == o && !Ambiguous(s) && Tag(s) in items :: items[Tag(s)]
  }

  // Put and Drop on a typed dictionary, with no tags involved.

  ghost function Removed(m: imap<Slot, Record>, s: Slot): imap<Slot, Record> {
    imap t | t in m && t != s :: m[t]
  }

  ghost function TypedPutOk(m: imap<Slot, Record>, s: Slot, f: Fate): bool {
    (f.deleteOk || s !in m) && f.addOk
  }

  ghost function TypedPut(m: imap<Slot, Record>, s: Slot, r: Record, f: Fate): imap<Slot, Record> {
    var rest := if f.deleteOk then Removed(m, s) else m;
    if TypedPutOk(m, s, f) then rest[s := r] else rest
  }

  ghost function TypedDrop(m: imap<Slot, Record>, s: Slot, ok: bool): imap<Slot, Record> {
    if ok then Removed(m, s) else m
  }

  lemma TagsApart(s: Slot)
    requires !Ambiguous(s)
    ensures forall t: Slot {:trigger Tag(t)} :: !Ambiguous(t) && t != s ==> Tag(t) != Tag(s)
  {
    forall t: Slot | !Ambiguous(t) && t != s
      ensures Tag(t) != Tag(s)
    {
      if Tag(t) == Tag(s) {
        TagInjective(s, t);
      }
    }
  }

  /** Two dictionaries that agree but for one tag give every store the same items but for its slot. */
  lemma TypedApart(items: Items, items': Items, s: Slot, o: Store, t: Slot)
    requires !Ambiguous(s) && t != s
    requires forall tag :: tag != Tag(s) ==> (tag in items <==> tag in items')
    requires forall tag :: tag != Tag(s) && tag in items ==> items[tag] == items'[tag]
    ensures t in Typed(items, o) <==> t in Typed(items', o)
    ensures t in Typed(items, o) ==> Typed(items, o)[t] == Typed(items', o)[t]
  {
    if !Ambiguous(t) && Tag(t) == Tag(s) {
      TagInjective(s, t);
    }
  }

  /** Deleting by tag removes exactly one slot of one store. */
  lemma DropIsTyped(items: Items, s: Slot, ok: bool, o: Store)
    requires !Ambiguous(s)
    ensures Typed(Drop(items, Tag(s), ok), o)
            == if Owner(s) == o then TypedDrop(Typed(items, o), s, ok) else Typed(items, o)
  {
    var left := Typed(Drop(items, Tag(s), ok), o);
    var right := if Owner(s) == o then TypedDrop(Typed(items, o), s, ok) else Typed(items, o);
    forall t: Slot
      ensures t in left <==> t in right
      ensures t in left ==> left[t] == right[t]
    {
      if t != s {
        TypedApart(items, Drop(items, Tag(s), ok), s, o, t);
      }
    }
  }

  lemma AddIsTyped(items: Items, s: Slot, r: Record, o: Store)
    requires !Ambiguous(s)
    ensures Typed(items[Tag(s) := r], o) == if Owner(s) == o then Typed(items, o)[s := r] else Typed(items, o)
  {
    var left := Typed(items[Tag(s) := r], o);
    var right := if Owner(s) == o then Typed(items, o)[s := r] else Typed(items, o);
    forall t: Slot
      ensures t in left <==> t in right
      ensures t in left ==> left[t] == right[t]
    {
      if t != s {
        TypedApart(items, items[Tag(s) := r], s, o, t);
      }
    }
  }

  /** Writing by tag writes exactly one slot of one store, with the same outcome. */
  lemma PutIsTyped(items: Items, s: Slot, r: Record, f: Fate, o: Store)
    requires !Ambiguous(s)
    ensures Put(items, Tag(s), r, f).ok == TypedPutOk(Typed(items, Owner(s)), s, f)
    ensures Typed(Put(items, Tag(s), r, f).items, o)
            == if Owner(s) == o then TypedPut(Typed(items, o), s, r, f) else Typed(items, o)
  {
    var tag := Tag(s);
    var rest := Drop(items, tag, f.deleteOk);
    DropIsTyped(items, s, f.deleteOk, o);
    AddIsTyped(rest, s, r, o);
    assert tag in items <==> s in Typed(items, Owner(s));
  }
}
