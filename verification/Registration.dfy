/** The users table of a single-user instance: claiming the owner's row, first passkeys, resets. */
module Registration {
  import opened Prelude
  import opened Seqs

  /** A row, in rowid order within the table. A row with no passkey is a registration not finished. */
  datatype User = User(id: nat, username: string, displayName: string, creds: seq<string>, created: int)

  type Table = seq<User>

  /** The name every registration goes by. */
  const OWNER_NAME := "owner"

  predicate Holds(u: User) {
    u.creds != []
  }

  /** ORDER BY credentials_json = '[]', created_at, and then by rowid. */
  predicate Before(u: User, v: User) {
    (Holds(u) && !Holds(v)) || (Holds(u) == Holds(v) && u.created <= v.created)
  }

  /** OwnerOrder ... LIMIT 1. */
  function First(users: Table): (i: nat)
    requires users != []
    ensures i < |users|
    ensures forall j | 0 <= j < |users| :: Before(users[i], users[j])
  {
    if |users| == 1 then 0
    else
      var i := First(users[..|users| - 1]);
      if Before(users[i], users[|users| - 1]) then i else |users| - 1
  }

  function Owner(users: Table): Option<User> {
    if users == [] then None else Some(users[First(users)])
  }

  predicate HasRow(users: Table, id: nat) {
    exists u | u in users :: u.id == id
  }

  predicate Pending(users: Table, id: nat) {
    exists u | u in users :: u.id == id && !Holds(u)
  }

  /** WHERE credentials_json = '[]'. */
  function Passkeyless(): User -> bool {
    (u: User) => !Holds(u)
  }

  /** NOT (id != ? AND credentials_json = '[]' AND created_at < ?). */
  function NotAbandoned(id: nat, olderThan: int): User -> bool {
    (u: User) => u.id == id || Holds(u) || olderThan <= u.created
  }

  /** NOT (id != ? AND credentials_json = '[]'). */
  function OnlyAttempt(id: nat): User -> bool {
    (u: User) => u.id == id || Holds(u)
  }

  /** NOT (id = ? AND credentials_json = '[]'). */
  function NotAttempt(id: nat): User -> bool {
    (u: User) => u.id != id || Holds(u)
  }

  /** UPDATE users SET credentials_json = ? WHERE id = ?. */
  function WithCreds(id: nat, creds: seq<string>): User -> User {
    (u: User) => if u.id == id then u.(creds := creds) else u
  }

  function WithDisplay(id: nat, displayName: string): User -> User {
    (u: User) => if u.id == id then u.(displayName := displayName) else u
  }

  /** The owner's unfinished row, if there is one, taken for this attempt; abandoned ones go. */
  function Claimed(users: Table, displayName: string, olderThan: int): Option<(nat, Table)> {
    var rows := Filter(users, Passkeyless());
    if rows == [] then None
    else
      var id := rows[First(rows)].id;
      Some((id, Map(Filter(users, NotAbandoned(id, olderThan)), WithDisplay(id, displayName))))
  }

  predicate NameTaken(users: Table, username: string) {
    exists u | u in users :: u.username == username
  }

  /** AddFirstCredential, and whether it attached the passkey. */
  function Registered(users: Table, id: nat, cred: string): (Table, bool) {
    var left := if Pending(users, id) then Filter(users, OnlyAttempt(id)) else users;
    if Pending(left, id) && forall u | u in left :: u.id == id || !Holds(u)
    then (Map(left, WithCreds(id, [cred])), true)
    else (Filter(left, NotAttempt(id)), false)
  }

  function IndexOf(creds: seq<string>, cred: string): (i: nat)
    ensures i <= |creds|
    ensures i < |creds| ==> creds[i] == cred
    ensures i == |creds| ==> cred !in creds
  {
    if creds == [] then 0
    else if creds[0] == cred then 0
    else 1 + IndexOf(creds[1..], cred)
  }

  /** What RemoveCredential would save: none when the passkey is unknown or the last. */
  function Less(creds: seq<string>, cred: string): Option<seq<string>> {
    var i := IndexOf(creds, cred);
    if i == |creds| || |creds| <= 1 then None else Some(creds[..i] + creds[i + 1..])
  }

  class Store {
    var users: Table

    constructor ()
      ensures users == []
    {
      users := [];
    }

    /** HasAnyRegisteredUser. */
    method HasAnyRegisteredUser() returns (any: bool)
      ensures any <==> exists u | u in users :: Holds(u)
    {
      any := false;
      for i := 0 to |users|
        invariant any <==> exists j | 0 <= j < i :: Holds(users[j])
      {
        any := any || Holds(users[i]);
      }
    }

    /** The transaction of claimOrCreate; none when a row is still to be created. */
    method Claim(displayName: string, olderThan: int) returns (id: Option<nat>)
      modifies this
      ensures var claimed := Claimed(old(users), displayName, olderThan);
              if claimed.Some? then id == Some(claimed.value.0) && users == claimed.value.1 else id == None && users == old(users)
    {
      var rows := Filter(users, Passkeyless());
      if rows == [] {
        return None;
      }
      var row := rows[First(rows)];
      users := Filter(users, NotAbandoned(row.id, olderThan));
      users := Map(users, WithDisplay(row.id, displayName));
      id := Some(row.id);
    }

    /** CreateUser; false when the name is taken, which closes the registration. */
    method CreateUser(id: nat, username: string, displayName: string, now: int) returns (created: bool)
      modifies this
      ensures created == !NameTaken(old(users), username)
      ensures users == if created then old(users) + [User(id, username, displayName, [], now)] else old(users)
    {
      if NameTaken(users, username) {
        return false;
      }
      users := users + [User(id, username, displayName, [], now)];
      created := true;
    }

    /** AddFirstCredential; false when the registration is closed. */
    method AddFirstCredential(id: nat, cred: string) returns (attached: bool)
      modifies this
      ensures (users, attached) == Registered(old(users), id, cred)
    {
      if Pending(users, id) {
        users := Filter(users, OnlyAttempt(id));
      }
      attached := Pending(users, id) && forall u | u in users :: u.id == id || !Holds(u);
      if attached {
        users := Map(users, WithCreds(id, [cred]));
      } else {
        users := Filter(users, NotAttempt(id));
      }
    }

    method SaveCredentials(id: nat, creds: seq<string>)
      modifies this
      ensures users == Map(old(users), WithCreds(id, creds))
    {
      users := Map(users, WithCreds(id, creds));
    }

    /** RemoveCredential with nothing in between; false when it is the owner's last passkey. */
    method RemoveCredential(cred: string) returns (removed: bool)
      modifies this
      ensures var owner := Owner(old(users));
              if owner.Some? && Less(owner.value.creds, cred).Some?
              then users == Map(old(users), WithCreds(owner.value.id, Less(owner.value.creds, cred).value))
              else users == old(users)
      ensures !removed <==> Owner(old(users)).Some? && Owner(old(users)).value.creds == [cred]
    {
      if users == [] {
        return true;
      }
      var u := users[First(users)];
      var i := 0;
      while i < |u.creds| && u.creds[i] != cred
        invariant i <= |u.creds|
        invariant forall j | 0 <= j < i :: u.creds[j] != cred
      {
        i := i + 1;
      }
      FirstIndex(u.creds, cred, i);
      if i == |u.creds| {
        return true;
      }
      if |u.creds| <= 1 {
        return false;
      }
      SaveCredentials(u.id, u.creds[..i] + u.creds[i + 1..]);
      removed := true;
    }
  }

  /** A passkey is removed exactly if it is there and not the last, and every other stays in its place. */
  lemma LessRemoves(creds: seq<string>, cred: string)
    ensures Less(creds, cred).Some? <==> cred in creds && |creds| > 1
    ensures Less(creds, cred).Some? ==>
              exists i | 0 <= i < |creds| :: creds[i] == cred && cred !in creds[..i] && Less(creds, cred).value == creds[..i] + creds[i + 1..]
  {
    BeforeIndex(creds, cred);
  }

  lemma {:induction false} BeforeIndex(creds: seq<string>, cred: string)
    ensures cred !in creds[..IndexOf(creds, cred)]
  {
    if creds != [] && creds[0] != cred {
      BeforeIndex(creds[1..], cred);
      var i := IndexOf(creds[1..], cred);
      assert creds[..1 + i] == [creds[0]] + creds[1..][..i];
    }
  }

  lemma {:induction false} FirstIndex(creds: seq<string>, cred: string, i: nat)
    requires i <= |creds| && (i < |creds| ==> creds[i] == cred)
    requires forall j | 0 <= j < i :: creds[j] != cred
    ensures IndexOf(creds, cred) == i
  {
    if i > 0 {
      FirstIndex(creds[1..], cred, i - 1);
    }
  }

  // ---- Every interleaving ----

  /** An edit of the owner's passkeys on its way: what the row was to say when the edit read it. */
  datatype Edit = Edit(id: nat, creds: seq<string>)

  /**
   * `creating` is the display name of the claim that found no row and has yet to insert one; it holds
   * the registration lock. `edits` and `resets` have read the owner and not yet written.
   */
  datatype State = State(
    users: Table,
    nextId: nat,
    now: int,
    creating: Option<string>,
    edits: multiset<Edit>,
    resets: multiset<nat>)

  datatype Event =
    | Passes(time: nat)
    | Claims(displayName: string, olderThan: int)
    | Creates
    | Finishes(id: nat, cred: string)
    | AddReads(cred: string)
    | RemoveReads(cred: string)
    | UpdateReads(cred: string, replacement: string)
    | Saves(edit: Edit)
    | ResetReads
    | ResetWrites(id: nat)

  function OnClaims(s: State, displayName: string, olderThan: int): State {
    if s.creating.Some? then s
    else
      var claimed := Claimed(s.users, displayName, olderThan);
      if claimed.None? then s.(creating := Some(displayName)) else s.(users := claimed.value.1)
  }

  function OnCreates(s: State): State {
    if s.creating.None? then s
    else if NameTaken(s.users, OWNER_NAME) then s.(creating := None)
    else
      s.(users := s.users + [User(s.nextId, OWNER_NAME, s.creating.value, [], s.now)],
         nextId := s.nextId + 1, creating := None)
  }

  function OnFinishes(s: State, id: nat, cred: string): State {
    if s.creating.Some? then s
    else s.(users := Registered(s.users, id, cred).0)
  }

  /** An edit read: `creds` is what it will save for the owner, if anything. */
  function Reads(s: State, creds: Option<seq<string>>): State {
    if s.users == [] || creds.None? then s
    else s.(edits := s.edits + multiset{Edit(Owner(s.users).value.id, creds.value)})
  }

  function OwnerCreds(users: Table): seq<string> {
    if users == [] then [] else Owner(users).value.creds
  }

  function OnUpdateReads(s: State, cred: string, replacement: string): State {
    var creds := OwnerCreds(s.users);
    var i := IndexOf(creds, cred);
    Reads(s, if i == |creds| then None else Some(creds[i := replacement]))
  }

  function OnSaves(s: State, edit: Edit): State {
    if edit !in s.edits then s
    else s.(users := Map(s.users, WithCreds(edit.id, edit.creds)), edits := s.edits - multiset{edit})
  }

  function OnResetReads(s: State): State {
    if s.users == [] then s else s.(resets := s.resets + multiset{Owner(s.users).value.id})
  }

  function OnResetWrites(s: State, id: nat): State {
    if id !in s.resets then s
    else s.(users := Map(s.users, WithCreds(id, [])), resets := s.resets - multiset{id})
  }

  function Step(s: State, e: Event): State {
    match e
    case Passes(time) => s.(now := s.now + time)
    case Claims(displayName, olderThan) => OnClaims(s, displayName, olderThan)
    case Creates => OnCreates(s)
    case Finishes(id, cred) => OnFinishes(s, id, cred)
    case AddReads(cred) => Reads(s, Some(OwnerCreds(s.users) + [cred]))
    case RemoveReads(cred) => Reads(s, Less(OwnerCreds(s.users), cred))
    case UpdateReads(cred, replacement) => OnUpdateReads(s, cred, replacement)
    case Saves(edit) => OnSaves(s, edit)
    case ResetReads => OnResetReads(s)
    case ResetWrites(id) => OnResetWrites(s, id)
  }

  function Exec(s: State, events: seq<Event>): State {
    if events == [] then s
    else Step(Exec(s, events[..|events| - 1]), events[|events| - 1])
  }

  // ---- Rows ----

  ghost predicate Ids(users: Table, nextId: nat) {
    && (forall u | u in users :: u.id < nextId)
    && forall i, j | 0 <= i < j < |users| :: users[i].id != users[j].id
  }

  lemma {:induction false} FilterIds(users: Table, keep: User -> bool, nextId: nat)
    requires Ids(users, nextId)
    ensures Ids(Filter(users, keep), nextId)
  {
    if users != [] {
      var most, last := users[..|users| - 1], users[|users| - 1];
      FilterIds(most, keep, nextId);
      FilterHas(most, keep);
      FilterHas(users, keep);
      var left := Filter(most, keep);
      forall u | u in left ensures u.id != last.id {
        assert u in most;
      }
      assert forall i | 0 <= i < |left| :: left[i] in left;
    }
  }

  lemma MapIds(users: Table, f: User -> User, nextId: nat)
    requires Ids(users, nextId) && forall u: User :: f(u).id == u.id
    ensures Ids(Map(users, f), nextId)
  {
  }

  // ---- One statement at a time ----

  ghost predicate HasCreds(users: Table, id: nat, creds: seq<string>) {
    exists u | u in users :: u.id == id && u.creds == creds
  }

  ghost predicate SomeHolds(users: Table) {
    exists u | u in users :: Holds(u)
  }

  lemma SameId(users: Table, u: User, v: User, nextId: nat)
    requires Ids(users, nextId) && u in users && v in users && u.id == v.id
    ensures u == v
  {
    var i :| 0 <= i < |users| && users[i] == u;
    var j :| 0 <= j < |users| && users[j] == v;
    assert i < j || j < i || i == j;
  }

  lemma FirstTwo(users: Table, nextId: nat)
    requires Ids(users, nextId) && |users| > 1
    ensures users[0].id != users[1].id
  {
  }

  lemma AloneIfNoOther(left: Table, id: nat, nextId: nat)
    requires Ids(left, nextId) && HasRow(left, id) && forall u | u in left :: u.id == id
    ensures |left| == 1 && left[0].id == id
  {
    assert forall i | 0 <= i < |left| :: left[i] in left && left[i].id == id;
    if |left| > 1 {
      FirstTwo(left, nextId);
    }
  }

  lemma Attaches(users: Table, id: nat, cred: string, nextId: nat)
    requires Ids(users, nextId) && Pending(users, id) && !SomeHolds(users)
    ensures Registered(users, id, cred).1
  {
    var left := Filter(users, OnlyAttempt(id));
    FilterHas(users, OnlyAttempt(id));
    var u :| u in users && u.id == id && !Holds(u);
    assert u in left;
  }

  lemma AttachedAlone(users: Table, id: nat, cred: string, nextId: nat)
    requires Ids(users, nextId) && Registered(users, id, cred).1
    ensures Pending(users, id) && !SomeHolds(users)
    ensures var after := Registered(users, id, cred).0; |after| == 1 && after[0].id == id && after[0].creds == [cred]
  {
    var left := if Pending(users, id) then Filter(users, OnlyAttempt(id)) else users;
    FilterHas(users, OnlyAttempt(id));
    FilterIds(users, OnlyAttempt(id), nextId);
    var own :| own in left && own.id == id && !Holds(own);
    assert Pending(users, id);
    AloneIfNoOther(left, id, nextId);
    forall u | u in left ensures u == own {
      SameId(left, u, own, nextId);
    }
  }

  lemma RefusedKeeps(users: Table, id: nat, cred: string)
    requires !Registered(users, id, cred).1
    ensures !Pending(Registered(users, id, cred).0, id)
    ensures forall u | u in users && Holds(u) :: u in Registered(users, id, cred).0
    ensures forall u | u in Registered(users, id, cred).0 :: u in users
  {
    var left := if Pending(users, id) then Filter(users, OnlyAttempt(id)) else users;
    FilterHas(users, OnlyAttempt(id));
    FilterHas(left, NotAttempt(id));
  }

  /**
   * First wins: a registration attaches its passkey exactly when its row is unfinished and nobody holds
   * a passkey, and is then alone in the table; one refused leaves no unfinished row of its own and
   * takes nobody's passkey.
   */
  lemma FirstWins(users: Table, id: nat, cred: string, nextId: nat)
    requires Ids(users, nextId)
    ensures var (after, attached) := Registered(users, id, cred);
            && (attached <==> Pending(users, id) && !SomeHolds(users))
            && (attached ==> |after| == 1 && after[0].id == id && after[0].creds == [cred])
            && (!attached ==> !Pending(after, id) && forall u | u in users && Holds(u) :: u in after)
  {
    if Registered(users, id, cred).1 {
      AttachedAlone(users, id, cred, nextId);
    } else {
      RefusedKeeps(users, id, cred);
      if Pending(users, id) && !SomeHolds(users) {
        Attaches(users, id, cred, nextId);
      }
    }
  }

  lemma MapHas(users: Table, f: User -> User)
    ensures forall u | u in users :: f(u) in Map(users, f)
    ensures forall v | v in Map(users, f) :: exists u | u in users :: f(u) == v
  {
    forall u | u in users ensures f(u) in Map(users, f) {
      var i :| 0 <= i < |users| && users[i] == u;
      assert Map(users, f)[i] in Map(users, f);
    }
    forall v | v in Map(users, f) ensures exists u | u in users :: f(u) == v {
      var i :| 0 <= i < |users| && Map(users, f)[i] == v;
      assert users[i] in users;
    }
  }

  /** Claiming the owner's row touches no passkey and drops only unfinished rows other than the claimed. */
  lemma ClaimedHas(users: Table, displayName: string, olderThan: int)
    requires Claimed(users, displayName, olderThan).Some?
    ensures var (id, after) := Claimed(users, displayName, olderThan).value;
            && Pending(users, id)
            && (forall v | v in after :: HasCreds(users, v.id, v.creds))
            && (forall u | u in users && (Holds(u) || u.id == id) :: HasCreds(after, u.id, u.creds))
  {
    var rows := Filter(users, Passkeyless());
    FilterHas(users, Passkeyless());
    assert rows[First(rows)] in rows;
    var id := rows[First(rows)].id;
    KeptHas(users, id, displayName, olderThan);
  }

  lemma KeptHas(users: Table, id: nat, displayName: string, olderThan: int)
    ensures var after := Map(Filter(users, NotAbandoned(id, olderThan)), WithDisplay(id, displayName));
            && (forall v | v in after :: HasCreds(users, v.id, v.creds))
            && (forall u | u in users && (Holds(u) || u.id == id) :: HasCreds(after, u.id, u.creds))
  {
    var kept, f := Filter(users, NotAbandoned(id, olderThan)), WithDisplay(id, displayName);
    FilterHas(users, NotAbandoned(id, olderThan));
    MapHas(kept, f);
    forall u | u in users && (Holds(u) || u.id == id) ensures HasCreds(Map(kept, f), u.id, u.creds) {
      assert f(u) in Map(kept, f);
    }
  }

  /** On an instance nobody is registered on, the row claimed is the owner's, and it keeps its name and passkeys. */
  lemma ClaimTakesTheOwnersRow(users: Table, displayName: string, olderThan: int)
    requires users != [] && !SomeHolds(users)
    ensures Claimed(users, displayName, olderThan).Some?
    ensures Claimed(users, displayName, olderThan).value.0 == Owner(users).value.id
    ensures Owner(users).value.(displayName := displayName) in Claimed(users, displayName, olderThan).value.1
  {
    FilterAll(users, Passkeyless());
    var owner := Owner(users).value;
    assert owner in users;
    FilterHas(users, NotAbandoned(owner.id, olderThan));
    MapHas(Filter(users, NotAbandoned(owner.id, olderThan)), WithDisplay(owner.id, displayName));
    assert WithDisplay(owner.id, displayName)(owner) in Claimed(users, displayName, olderThan).value.1;
  }

  /** Of the other unfinished rows, the ones left are exactly those young enough to be finished still. */
  lemma ClaimDropsTheAbandoned(users: Table, displayName: string, olderThan: int, u: User)
    requires Claimed(users, displayName, olderThan).Some? && u.id != Claimed(users, displayName, olderThan).value.0
    ensures u in Claimed(users, displayName, olderThan).value.1 <==> u in users && (Holds(u) || olderThan <= u.created)
  {
    var id := Claimed(users, displayName, olderThan).value.0;
    var kept, f := Filter(users, NotAbandoned(id, olderThan)), WithDisplay(id, displayName);
    FilterHas(users, NotAbandoned(id, olderThan));
    MapHas(kept, f);
    if u in kept {
      assert f(u) == u;
    }
  }

  // ---- At most one first registration between resets ----

  ghost predicate Numbered(s: State) {
    Ids(s.users, s.nextId) && forall ed | ed in s.edits :: ed.creds != [] && ed.id < s.nextId
  }

  lemma OwnerIn(users: Table)
    requires users != []
    ensures Owner(users).value in users
    ensures SomeHolds(users) ==> Holds(Owner(users).value)
  {
    var i := First(users);
    assert users[i] in users;
    if SomeHolds(users) {
      var u :| u in users && Holds(u);
      var j :| 0 <= j < |users| && users[j] == u;
      assert Before(users[i], users[j]);
    }
  }

  lemma ClaimsNumbered(s: State, displayName: string, olderThan: int)
    requires Numbered(s)
    ensures Numbered(OnClaims(s, displayName, olderThan))
  {
    var rows := Filter(s.users, Passkeyless());
    if rows != [] {
      var id := rows[First(rows)].id;
      FilterIds(s.users, NotAbandoned(id, olderThan), s.nextId);
      MapIds(Filter(s.users, NotAbandoned(id, olderThan)), WithDisplay(id, displayName), s.nextId);
    }
  }

  lemma FinishesNumbered(s: State, id: nat, cred: string)
    requires Numbered(s)
    ensures Numbered(OnFinishes(s, id, cred))
  {
    FilterIds(s.users, OnlyAttempt(id), s.nextId);
    var left := if Pending(s.users, id) then Filter(s.users, OnlyAttempt(id)) else s.users;
    FilterIds(left, NotAttempt(id), s.nextId);
    MapIds(left, WithCreds(id, [cred]), s.nextId);
  }

  lemma ReadsNumbered(s: State, creds: Option<seq<string>>)
    requires Numbered(s) && (creds.Some? ==> creds.value != [])
    ensures Numbered(Reads(s, creds))
  {
    if s.users != [] {
      OwnerIn(s.users);
    }
  }

  lemma CreatesNumbered(s: State)
    requires Numbered(s)
    ensures Numbered(OnCreates(s))
  {
  }

  lemma StepNumbered(s: State, e: Event)
    requires Numbered(s)
    ensures Numbered(Step(s, e))
  {
    hide First, Claimed, Registered;
    match e
    case Claims(displayName, olderThan) => ClaimsNumbered(s, displayName, olderThan);
    case Finishes(id, cred) => FinishesNumbered(s, id, cred);
    case Creates => CreatesNumbered(s);
    case AddReads(cred) => ReadsNumbered(s, Some(OwnerCreds(s.users) + [cred]));
    case RemoveReads(cred) => ReadsNumbered(s, Less(OwnerCreds(s.users), cred));
    case UpdateReads(cred, replacement) =>
      var creds := OwnerCreds(s.users);
      var i := IndexOf(creds, cred);
      ReadsNumbered(s, if i == |creds| then None else Some(creds[i := replacement]));
    case Saves(edit) => MapIds(s.users, WithCreds(edit.id, edit.creds), s.nextId);
    case ResetWrites(id) => MapIds(s.users, WithCreds(id, []), s.nextId);
    case ResetReads =>
    case Passes(_) =>
  }

  /** Nothing but a reset takes the last passkey of whoever holds one. */
  lemma OnlyAResetLocksOut(s: State, e: Event, u: User)
    requires Numbered(s) && u in s.users && Holds(u) && !e.ResetWrites?
    ensures exists v | v in Step(s, e).users :: v.id == u.id && Holds(v)
  {
    hide First, Claimed, Registered;
    match e
    case Claims(displayName, olderThan) =>
      if s.creating.None? && Claimed(s.users, displayName, olderThan).Some? {
        ClaimedHas(s.users, displayName, olderThan);
        assert HasCreds(Claimed(s.users, displayName, olderThan).value.1, u.id, u.creds);
      }
    case Finishes(id, cred) =>
      FirstWins(s.users, id, cred, s.nextId);
      assert u in OnFinishes(s, id, cred).users;
    case Saves(edit) =>
      MapHas(s.users, WithCreds(edit.id, edit.creds));
      assert edit in s.edits ==> WithCreds(edit.id, edit.creds)(u) in OnSaves(s, edit).users;
    case Creates => assert u in OnCreates(s).users;
    case _ =>
  }

  /** The `i`th event is a first registration that wins: nobody held a passkey before it, and then somebody does. */
  ghost predicate Wins(s: State, events: seq<Event>, i: nat)
    requires i < |events|
  {
    events[i].Finishes? && !SomeHolds(Exec(s, events[..i]).users) && SomeHolds(Exec(s, events[..i + 1]).users)
  }

  /** The `k`th event writes a reset. */
  ghost predicate Resets(s: State, events: seq<Event>, k: nat)
    requires k < |events|
  {
    events[k].ResetWrites? && events[k].id in Exec(s, events[..k]).resets
  }

  lemma {:induction false} RunNumbered(s: State, events: seq<Event>)
    requires Numbered(s)
    ensures Numbered(Exec(s, events))
  {
    if events != [] {
      RunNumbered(s, events[..|events| - 1]);
      StepNumbered(Exec(s, events[..|events| - 1]), events[|events| - 1]);
    }
  }

  lemma {:induction false} HeldUntilAReset(s: State, events: seq<Event>, i: nat, j: nat)
    requires Numbered(s) && i <= j <= |events| && SomeHolds(Exec(s, events[..i]).users)
    requires forall k | i <= k < j :: !Resets(s, events, k)
    ensures SomeHolds(Exec(s, events[..j]).users)
  {
    hide Step;
    if i < j {
      HeldUntilAReset(s, events, i, j - 1);
      assert events[..j][..j - 1] == events[..j - 1];
      var t, e := Exec(s, events[..j - 1]), events[j - 1];
      RunNumbered(s, events[..j - 1]);
      var u :| u in t.users && Holds(u);
      assert !Resets(s, events, j - 1);
      StillHolds(t, e, u);
    }
  }

  lemma StillHolds(s: State, e: Event, u: User)
    requires Numbered(s) && u in s.users && Holds(u) && !(e.ResetWrites? && e.id in s.resets)
    ensures SomeHolds(Step(s, e).users)
  {
    if !e.ResetWrites? { OnlyAResetLocksOut(s, e, u); }
  }

  /** From any table whatever, over every run: between any two first registrations that win a reset is written. */
  lemma OneWinsBetweenResets(s: State, events: seq<Event>, i: nat, j: nat)
    requires Numbered(s) && i < j < |events| && Wins(s, events, i) && Wins(s, events, j)
    ensures exists k | i < k < j :: Resets(s, events, k)
  {
    if forall k | i < k < j :: !Resets(s, events, k) {
      HeldUntilAReset(s, events, i + 1, j);
    }
  }

  // ---- At most one holds a passkey ----

  ghost predicate OneHolder(users: Table) {
    forall u, v | u in users && v in users && Holds(u) && Holds(v) :: u.id == v.id
  }

  /** If the row of an edit on its way is still there, nobody else holds a passkey. */
  ghost predicate EditOfHolder(users: Table, ed: Edit) {
    HasRow(users, ed.id) ==> forall u | u in users && Holds(u) :: u.id == ed.id
  }

  ghost predicate OneOwner(s: State) {
    && Numbered(s) && OneHolder(s.users)
    && (forall ed | ed in s.edits :: EditOfHolder(s.users, ed))
    && (forall ed, ed' | ed in s.edits && ed' in s.edits && HasRow(s.users, ed.id) && HasRow(s.users, ed'.id) :: ed.id == ed'.id)
  }

  /** The edits on their way for rows still there are for the row the owner query picks. */
  ghost predicate OfTheOwner(s: State) {
    s.users != [] ==> forall ed | ed in s.edits && HasRow(s.users, ed.id) :: ed.id == Owner(s.users).value.id
  }

  ghost predicate AddsToTheOwner(s: State, events: seq<Event>) {
    events == [] ||
    (AddsToTheOwner(s, events[..|events| - 1])
     && (events[|events| - 1].AddReads? ==> OfTheOwner(Exec(s, events[..|events| - 1]))))
  }

  /** An edit is asked for by someone signed in: the owner it reads holds a passkey. */
  predicate SignedIn(s: State, e: Event) {
    e.AddReads? ==> OwnerCreds(s.users) != []
  }

  /** A table whose rows, and whose holders, were all there before keeps the one owner. */
  lemma FewerKeep(s: State, s': State)
    requires OneOwner(s) && Numbered(s')
    requires forall v | v in s'.users && Holds(v) :: exists u | u in s.users :: u.id == v.id && Holds(u)
    requires forall ed | ed in s'.edits :: ed in s.edits && (HasRow(s'.users, ed.id) ==> HasRow(s.users, ed.id))
    ensures OneOwner(s')
  {
    forall ed, v | ed in s'.edits && HasRow(s'.users, ed.id) && v in s'.users && Holds(v) ensures v.id == ed.id {
      assert EditOfHolder(s.users, ed);
    }
    forall ed | ed in s'.edits ensures EditOfHolder(s'.users, ed) {
    }
  }

  /** With a holder, every edit on its way for a row still there is the holder's, who is the owner. */
  lemma HoldersEdits(s: State)
    requires OneOwner(s) && OwnerCreds(s.users) != []
    ensures OfTheOwner(s)
  {
    OwnerIn(s.users);
    forall ed | ed in s.edits && HasRow(s.users, ed.id) ensures ed.id == Owner(s.users).value.id {
      assert EditOfHolder(s.users, ed);
    }
  }

  lemma ReadsKeep(s: State, creds: Option<seq<string>>)
    requires OneOwner(s) && OfTheOwner(s) && (creds.Some? ==> creds.value != [])
    ensures OneOwner(Reads(s, creds))
  {
    ReadsNumbered(s, creds);
    var s' := Reads(s, creds);
    if s.users != [] {
      OwnerIn(s.users);
      var owner := Owner(s.users).value;
      forall ed | ed in s'.edits ensures EditOfHolder(s.users, ed) && (HasRow(s.users, ed.id) ==> ed.id == owner.id) {
        if ed in s.edits {
          assert EditOfHolder(s.users, ed);
        }
      }
    }
  }

  /** A read of passkeys to add keeps the one owner exactly when every edit on its way is for the row it picks. */
  lemma AddKeepsOneOwnerIff(s: State, cred: string)
    requires OneOwner(s)
    ensures OneOwner(Step(s, AddReads(cred))) <==> OfTheOwner(s)
  {
    var creds := Some(OwnerCreds(s.users) + [cred]);
    if OfTheOwner(s) {
      ReadsKeep(s, creds);
    } else {
      OwnerIn(s.users);
      var ed :| ed in s.edits && HasRow(s.users, ed.id) && ed.id != Owner(s.users).value.id;
      var added := Edit(Owner(s.users).value.id, creds.value);
      assert added in Reads(s, creds).edits && ed in Reads(s, creds).edits && HasRow(s.users, added.id);
    }
  }

  lemma SavesHave(users: Table, edit: Edit, u: User)
    requires u in users
    ensures u.id == edit.id ==> u.(creds := edit.creds) in Map(users, WithCreds(edit.id, edit.creds))
    ensures u.id != edit.id ==> u in Map(users, WithCreds(edit.id, edit.creds))
  {
    MapHas(users, WithCreds(edit.id, edit.creds));
    assert WithCreds(edit.id, edit.creds)(u) in Map(users, WithCreds(edit.id, edit.creds));
  }

  lemma TwoSaves(s: State, ed: Edit, ed': Edit)
    ensures Exec(s, [Saves(ed), Saves(ed')]) == OnSaves(OnSaves(s, ed), ed')
  {
    var events := [Saves(ed), Saves(ed')];
    assert events[..1] == [Saves(ed)] && events[..1][..0] == [];
    assert Exec(s, events[..1]) == OnSaves(s, ed);
  }

  lemma BothSaved(users: Table, ed: Edit, ed': Edit, u: User, v: User)
    requires u in users && v in users && u.id == ed.id != ed'.id == v.id && ed.creds != [] && ed'.creds != []
    ensures !OneHolder(Map(Map(users, WithCreds(ed.id, ed.creds)), WithCreds(ed'.id, ed'.creds)))
  {
    var once := Map(users, WithCreds(ed.id, ed.creds));
    SavesHave(users, ed, u);
    SavesHave(users, ed, v);
    SavesHave(once, ed', u.(creds := ed.creds));
    SavesHave(once, ed', v);
  }

  /** And there is need of that: otherwise the two edits then on their way, once saved, leave two holders. */
  lemma OtherwiseTwoHold(s: State, cred: string)
    requires OneOwner(s) && !OfTheOwner(s)
    ensures exists ed, ed' :: !OneHolder(Exec(Step(s, AddReads(cred)), [Saves(ed), Saves(ed')]).users)
  {
    hide First, OneHolder, EditOfHolder;
    OwnerIn(s.users);
    var owner := Owner(s.users).value;
    var ed :| ed in s.edits && HasRow(s.users, ed.id) && ed.id != owner.id;
    var u :| u in s.users && u.id == ed.id;
    var added := Edit(owner.id, OwnerCreds(s.users) + [cred]);
    BothSaved(s.users, ed, added, u, owner);
    TwoSaves(Step(s, AddReads(cred)), ed, added);
    assert added in OnSaves(Step(s, AddReads(cred)), ed).edits;
  }

  lemma SavesHolders(users: Table, edit: Edit)
    requires EditOfHolder(users, edit)
    ensures var after := Map(users, WithCreds(edit.id, edit.creds));
            && (forall v | v in after :: HasRow(users, v.id))
            && (HasRow(users, edit.id) ==> forall v | v in after && Holds(v) :: v.id == edit.id)
            && (!HasRow(users, edit.id) ==> after == users)
  {
    var f := WithCreds(edit.id, edit.creds);
    MapHas(users, f);
    forall v: User | v in Map(users, f) ensures HasRow(users, v.id) && (HasRow(users, edit.id) && Holds(v) ==> v.id == edit.id) {
      var u :| u in users && f(u) == v;
      assert u.id == v.id;
    }
    if !HasRow(users, edit.id) {
      MapId(users, f);
    }
  }

  lemma SavesKeep(s: State, edit: Edit)
    requires OneOwner(s)
    ensures OneOwner(OnSaves(s, edit))
  {
    var s' := OnSaves(s, edit);
    MapIds(s.users, WithCreds(edit.id, edit.creds), s.nextId);
    if edit in s.edits {
      assert EditOfHolder(s.users, edit);
      SavesHolders(s.users, edit);
      if HasRow(s.users, edit.id) {
        forall ed | ed in s'.edits ensures EditOfHolder(s'.users, ed) && (HasRow(s'.users, ed.id) ==> HasRow(s.users, ed.id)) {
          assert ed in s.edits;
        }
      } else {
        FewerKeep(s, s');
      }
    }
  }

  lemma FinishesKeep(s: State, id: nat, cred: string)
    requires OneOwner(s)
    ensures OneOwner(OnFinishes(s, id, cred))
  {
    hide Registered;
    FinishesNumbered(s, id, cred);
    if s.creating.None? {
      FirstWins(s.users, id, cred, s.nextId);
      var (after, attached) := Registered(s.users, id, cred);
      if attached {
        assert forall ed | ed in s.edits && HasRow(after, ed.id) :: ed.id == id;
        assert forall ed | ed in s.edits :: EditOfHolder(after, ed);
      } else {
        RefusedKeeps(s.users, id, cred);
        FewerKeep(s, OnFinishes(s, id, cred));
      }
    }
  }

  lemma ClaimsKeep(s: State, displayName: string, olderThan: int)
    requires OneOwner(s)
    ensures OneOwner(OnClaims(s, displayName, olderThan))
  {
    hide Claimed;
    ClaimsNumbered(s, displayName, olderThan);
    if s.creating.None? && Claimed(s.users, displayName, olderThan).Some? {
      ClaimedHas(s.users, displayName, olderThan);
      var after := Claimed(s.users, displayName, olderThan).value.1;
      forall v | v in after ensures exists u | u in s.users :: u.id == v.id && u.creds == v.creds {
        assert HasCreds(s.users, v.id, v.creds);
      }
    }
    FewerKeep(s, OnClaims(s, displayName, olderThan));
  }

  lemma CreatesKeep(s: State)
    requires OneOwner(s)
    ensures OneOwner(OnCreates(s))
  {
    FewerKeep(s, OnCreates(s));
  }

  lemma ResetWritesKeep(s: State, id: nat)
    requires OneOwner(s)
    ensures OneOwner(OnResetWrites(s, id))
  {
    StepNumbered(s, ResetWrites(id));
    ResetHas(s.users, id);
    FewerKeep(s, OnResetWrites(s, id));
  }

  /** A reset gives nobody a passkey, and takes away no row. */
  lemma ResetHas(users: Table, id: nat)
    ensures var after := Map(users, WithCreds(id, []));
      && (forall v | v in after && Holds(v) :: exists u | u in users :: u.id == v.id && Holds(u))
      && (forall other: nat :: HasRow(after, other) ==> HasRow(users, other))
  {
    MapHas(users, WithCreds(id, []));
    var after := Map(users, WithCreds(id, []));
    forall v | v in after ensures exists u | u in users :: u.id == v.id && (Holds(v) ==> Holds(u)) {
      var u :| u in users && WithCreds(id, [])(u) == v;
    }
  }

  lemma StepKeepsOneOwner(s: State, e: Event)
    requires OneOwner(s) && (e.AddReads? ==> OfTheOwner(s))
    ensures OneOwner(Step(s, e))
  {
    hide First, Claimed, Registered, OfTheOwner;
    StepNumbered(s, e);
    match e
    case Claims(displayName, olderThan) => ClaimsKeep(s, displayName, olderThan);
    case Finishes(id, cred) => FinishesKeep(s, id, cred);
    case Creates => CreatesKeep(s);
    case AddReads(cred) => ReadsKeep(s, Some(OwnerCreds(s.users) + [cred]));
    case RemoveReads(cred) =>
      if OwnerCreds(s.users) != [] {
        HoldersEdits(s);
        ReadsKeep(s, Less(OwnerCreds(s.users), cred));
      }
    case UpdateReads(cred, replacement) =>
      var creds := OwnerCreds(s.users);
      var i := IndexOf(creds, cred);
      if creds != [] {
        HoldersEdits(s);
        ReadsKeep(s, if i == |creds| then None else Some(creds[i := replacement]));
      }
    case Saves(edit) => SavesKeep(s, edit);
    case ResetWrites(id) => ResetWritesKeep(s, id);
    case ResetReads =>
    case Passes(_) =>
  }

  /**
   * From any table with at most one holder, over every run: at most one row holds a passkey, however
   * edits, claims, registrations and resets interleave, as long as no passkey is added while an edit of
   * another row is on its way.
   */
  lemma {:induction false} AtMostOneHolder(s: State, events: seq<Event>)
    requires Ids(s.users, s.nextId) && OneHolder(s.users) && s.edits == multiset{}
    requires AddsToTheOwner(s, events)
    ensures OneOwner(Exec(s, events))
  {
    if events != [] {
      AtMostOneHolder(s, events[..|events| - 1]);
      StepKeepsOneOwner(Exec(s, events[..|events| - 1]), events[|events| - 1]);
    }
  }

  ghost predicate AllSignedIn(s: State, events: seq<Event>) {
    events == [] ||
    (AllSignedIn(s, events[..|events| - 1]) && SignedIn(Exec(s, events[..|events| - 1]), events[|events| - 1]))
  }

  /** So it is when whoever adds a passkey is signed in, that is, holds one. */
  lemma {:induction false} SignedInIsEnough(s: State, events: seq<Event>)
    requires Ids(s.users, s.nextId) && OneHolder(s.users) && s.edits == multiset{}
    requires AllSignedIn(s, events)
    ensures AddsToTheOwner(s, events) && OneOwner(Exec(s, events))
  {
    if events != [] {
      var most, last := events[..|events| - 1], events[|events| - 1];
      SignedInIsEnough(s, most);
      if last.AddReads? {
        HoldersEdits(Exec(s, most));
      }
      StepKeepsOneOwner(Exec(s, most), last);
    }
  }

  /** A table with a holder, and an older registration never finished. */
  function Legacy(x: User, y: User): State {
    State([x, y], 2, 0, None, multiset{}, multiset{})
  }

  /** The holder's edit is on its way when a reset is written. */
  function Reset(x: User, y: User, cred: string): State {
    var s1 := Step(Legacy(x, y), AddReads(cred));
    var s2 := Step(s1, ResetReads);
    Step(s2, ResetWrites(x.id))
  }

  lemma AfterReset(x: User, y: User, cred: string)
    requires x.id == 0 && y.id == 1 && Holds(x) && !Holds(y) && y.created < x.created
    ensures Reset(x, y, cred).users == [x.(creds := []), y] && Reset(x, y, cred).edits == multiset{Edit(0, x.creds + [cred])}
  {
    assert [x, y][..1] == [x];
    assert First([x, y]) == 0;
    var s1 := Step(Legacy(x, y), AddReads(cred));
    assert s1.edits == multiset{Edit(0, x.creds + [cred])};
    assert Step(s1, ResetReads).resets == multiset{0};
    assert Map([x, y], WithCreds(0, [])) == [x.(creds := []), y];
  }

  /** A passkey added with nobody holding one then goes to the older row, and two rows end up with passkeys. */
  lemma WithoutASignInTwoCanHold(x: User, y: User, cred: string, cred': string)
    requires x.id == 0 && y.id == 1 && Holds(x) && !Holds(y) && y.created < x.created
    ensures OneHolder(Legacy(x, y).users)
    ensures var s := Reset(x, y, cred);
            var s1 := Step(s, AddReads(cred'));
            var s2 := Step(s1, Saves(Edit(1, [cred'])));
            var s3 := Step(s2, Saves(Edit(0, x.creds + [cred])));
            !SignedIn(s, AddReads(cred')) && s3.users == [x.(creds := x.creds + [cred]), y.(creds := [cred'])]
  {
    AfterReset(x, y, cred);
    var s := Reset(x, y, cred);
    var x' := x.(creds := []);
    assert [x', y][..1] == [x'];
    assert First([x', y]) == 1;
    var s1 := Step(s, AddReads(cred'));
    assert [] + [cred'] == [cred'];
    assert s1.edits == multiset{Edit(0, x.creds + [cred]), Edit(1, [cred'])};
    var s2 := Step(s1, Saves(Edit(1, [cred'])));
    assert s2.users == [x', y.(creds := [cred'])];
    assert Edit(0, x.creds + [cred]) in s2.edits;
  }

  // ---- A single row, for good ----

  ghost predicate OneRow(users: Table) {
    users == [] || (|users| == 1 && users[0].username == OWNER_NAME)
  }

  lemma OneRowFilter(users: Table, keep: User -> bool)
    requires |users| == 1 && keep(users[0])
    ensures Filter(users, keep) == users
  {
    FilterAll(users, keep);
  }

  /** The one row is never dropped, and its id never changes. */
  lemma StepKeepsOneRow(s: State, e: Event)
    requires Numbered(s) && OneRow(s.users)
    ensures OneRow(Step(s, e).users)
    ensures s.users != [] ==> Step(s, e).users != [] && Step(s, e).users[0].id == s.users[0].id
  {
    hide First, Claimed, Registered;
    match e
    case Claims(displayName, olderThan) =>
      if Claimed(s.users, displayName, olderThan).Some? {
        ClaimsOneRow(s.users, displayName, olderThan);
      }
    case Finishes(id, cred) => FinishesOneRow(s.users, id, cred);
    case Creates => assert s.users != [] ==> s.users[0] in s.users;
    case _ =>
  }

  lemma ClaimsOneRow(users: Table, displayName: string, olderThan: int)
    requires OneRow(users) && Claimed(users, displayName, olderThan).Some?
    ensures var after := Claimed(users, displayName, olderThan).value.1;
            users != [] && OneRow(after) && after != [] && after[0].id == users[0].id
  {
    var rows := Filter(users, Passkeyless());
    FilterHas(users, Passkeyless());
    assert rows[First(rows)] in rows;
    OneRowFilter(users, NotAbandoned(users[0].id, olderThan));
  }

  lemma FinishesOneRow(users: Table, id: nat, cred: string)
    requires OneRow(users)
    ensures OneRow(Registered(users, id, cred).0)
    ensures users != [] ==> Registered(users, id, cred).0 != [] && Registered(users, id, cred).0[0].id == users[0].id
  {
    if users != [] {
      assert users[0] in users;
      if Pending(users, id) {
        OneRowFilter(users, OnlyAttempt(id));
      } else {
        OneRowFilter(users, NotAttempt(id));
      }
    }
  }

  /** On a fresh instance there is never a second row, over every run. */
  lemma {:induction false} NeverASecondRow(s: State, events: seq<Event>)
    requires s.users == [] && s.edits == multiset{}
    ensures Numbered(Exec(s, events)) && OneRow(Exec(s, events).users)
  {
    if events != [] {
      NeverASecondRow(s, events[..|events| - 1]);
      StepNumbered(Exec(s, events[..|events| - 1]), events[|events| - 1]);
      StepKeepsOneRow(Exec(s, events[..|events| - 1]), events[|events| - 1]);
    }
  }

  /** And the owner's row keeps its id for good, across every reset and registration. */
  lemma {:induction false} OwnerKeepsItsId(s: State, events: seq<Event>, i: nat)
    requires s.users == [] && s.edits == multiset{} && i <= |events| && Exec(s, events[..i]).users != []
    ensures Exec(s, events).users != [] && Exec(s, events).users[0].id == Exec(s, events[..i]).users[0].id
  {
    if i < |events| {
      var most := events[..|events| - 1];
      assert most[..i] == events[..i];
      OwnerKeepsItsId(s, most, i);
      NeverASecondRow(s, most);
      StepKeepsOneRow(Exec(s, most), events[|events| - 1]);
    } else {
      assert events[..i] == events;
    }
  }

  // ---- A fresh instance ----

  lemma ClaimsNoRow(s: State, displayName: string, olderThan: int)
    requires s.users == [] && s.creating.None?
    ensures OnClaims(s, displayName, olderThan) == s.(creating := Some(displayName))
  {
  }

  lemma CreatesTheRow(s: State)
    requires s.users == [] && s.creating.Some?
    ensures OnCreates(s).users == [User(s.nextId, OWNER_NAME, s.creating.value, [], s.now)]
    ensures OnCreates(s).creating.None? && OnCreates(s).nextId == s.nextId + 1
  {
  }

  lemma RegistersTheRow(u: User, cred: string)
    requires !Holds(u)
    ensures Registered([u], u.id, cred).0 == [u.(creds := [cred])]
  {
    hide First, Claimed, Before, Filter, Map;
    var rows := [u];
    assert rows[0] == u && u in rows;
    assert Pending(rows, u.id);
    assert Filter(rows, OnlyAttempt(u.id)) == rows by { FilterAll(rows, OnlyAttempt(u.id)); }
    assert forall v | v in rows :: v == u;
    assert Map(rows, WithCreds(u.id, [cred])) == [u.(creds := [cred])];
  }

  /** With no row at all, a claim, the row it makes and its passkey give the one owner. */
  lemma AFreshInstanceRegisters(s: State, displayName: string, olderThan: int, cred: string)
    requires s.users == [] && s.creating.None?
    ensures var claimed := Step(s, Claims(displayName, olderThan));
      Step(Step(claimed, Creates), Finishes(s.nextId, cred)).users == [User(s.nextId, OWNER_NAME, displayName, [cred], s.now)]
  {
    hide OnClaims, OnCreates, Registered, Reads, OnUpdateReads, OnSaves, OnResetReads, OnResetWrites;
    ClaimsNoRow(s, displayName, olderThan);
    CreatesTheRow(OnClaims(s, displayName, olderThan));
    RegistersTheRow(User(s.nextId, OWNER_NAME, displayName, [], s.now), cred);
  }

  lemma NotAmong(creds: seq<string>, cred: string, i: nat, j: nat)
    requires j < i <= |creds| && cred !in creds[..i]
    ensures creds[j] != cred
  {
    assert creds[..i][j] == creds[j];
  }

  /** Changing a passkey saves the owner's others as they were; one the owner does not have changes nothing. */
  lemma UpdateReplaces(s: State, cred: string, replacement: string, i: nat)
    requires s.users != [] && i <= |OwnerCreds(s.users)| && cred !in OwnerCreds(s.users)[..i]
    requires i < |OwnerCreds(s.users)| ==> OwnerCreds(s.users)[i] == cred
    ensures var creds := OwnerCreds(s.users); var after := Step(s, UpdateReads(cred, replacement));
      after == if i == |creds| then s else s.(edits := s.edits + multiset{Edit(Owner(s.users).value.id, creds[i := replacement])})
  {
    hide First, Owner;
    var creds := OwnerCreds(s.users);
    BeforeIndex(creds, cred);
    forall j | 0 <= j < i ensures creds[j] != cred { NotAmong(creds, cred, i, j); }
    forall j | 0 <= j < IndexOf(creds, cred) ensures creds[j] != cred { NotAmong(creds, cred, IndexOf(creds, cred), j); }
  }

  /** An edit is written once for each time it was read. */
  lemma AnEditWritesOnce(s: State, edit: Edit)
    requires s.edits[edit] == 1
    ensures var saved := Step(s, Saves(edit)); Step(saved, Saves(edit)) == saved
  {
    assert edit !in Step(s, Saves(edit)).edits;
  }
}
