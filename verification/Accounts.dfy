/** The accounts of the identity service and the three maps that lead to them. */
module Accounts {
  import opened Text
  import opened Paths

  function KeepSlug(s: string): string {
    if s == "" then ""
    else
      var c := s[|s| - 1];
      if 'a' <= c <= 'z' || '0' <= c <= '9' || c == '-' then KeepSlug(s[..|s| - 1]) + [c] else KeepSlug(s[..|s| - 1])
  }

  function SanitizeSlug(s: string): string { KeepSlug(Lower(s)) }

  function NormalEmail(email: string): string { Lower(TrimSpace(email)) }

  datatype Persisted = Persisted(id: string, handle: string, email: string, name: string, passwordHash: string,
                                 tokenVersion: int, webID: string)

  class Account {
    const id: string
    const handle: string
    const webID: string
    var email: string
    var name: string
    var passwordHash: string
    var tokenVersion: int

    constructor (p: Persisted)
      ensures Snapshot() == p
    {
      id, handle, webID := p.id, p.handle, p.webID;
      email, name, passwordHash, tokenVersion := p.email, p.name, p.passwordHash, p.tokenVersion;
    }

    function Snapshot(): Persisted
      reads this
    {
      Persisted(id, handle, email, name, passwordHash, tokenVersion, webID)
    }
  }

  datatype Registration = Registered | Missing | Reserved | Exists | Taken

  class Directory {
    var accounts: map<string, Account>
    var byHandle: map<string, Account>
    var byID: map<string, Account>

    constructor ()
      ensures Valid() && View() == map[]
    {
      accounts, byHandle, byID := map[], map[], map[];
    }

    /** The account is one of those in use. */
    predicate Holds(a: Account)
      reads this
    {
      a.id in byID && byID[a.id] == a
    }

    /** The three maps share the accounts. */
    ghost predicate Shared()
      reads this, byID.Values
    {
      && (forall i :: i in byID ==> byID[i].id == i)
      && (forall e :: e in accounts ==> Holds(accounts[e]))
      && (forall h :: h in byHandle ==> Holds(byHandle[h]))
    }

    /** They describe the same ones, each by what it is called. */
    ghost predicate Valid()
      reads this, byID.Values
    {
      Shared() && Coherent(View(), Ids(accounts), Ids(byHandle))
    }

    function View(): map<string, Persisted>
      reads this, byID.Values
    {
      map i | i in byID :: byID[i].Snapshot()
    }

    method IndexAccount(acc: Account)
      modifies this
      ensures accounts == if acc.email != "" then old(accounts)[acc.email := acc] else old(accounts)
      ensures byHandle == if acc.handle != ""
                          then old(byHandle)[acc.handle := acc][Lower(acc.handle) := acc] else old(byHandle)
      ensures byID == old(byID)[acc.id := acc]
    {
      if acc.email != "" {
        accounts := accounts[acc.email := acc];
      }
      if acc.handle != "" {
        byHandle := byHandle[acc.handle := acc];
        byHandle := byHandle[Lower(acc.handle) := acc];
      }
      byID := byID[acc.id := acc];
    }

    /** The keys of the account are forgotten; when they were coherent, no other key leads to it. */
    method DropAccount(acc: Account)
      modifies this
      ensures accounts == if acc.email != "" then old(accounts) - {acc.email} else old(accounts)
      ensures byHandle == if acc.handle != "" then old(byHandle) - {acc.handle, Lower(acc.handle)} else old(byHandle)
      ensures byID == old(byID) - {acc.id}
      ensures old(Valid() && Holds(acc)) ==>
                && Valid() && View() == old(View()) - {acc.id}
                && acc !in accounts.Values && acc !in byHandle.Values && acc !in byID.Values
    {
      if Valid() && Holds(acc) {
        OnlyByName(acc);
        DroppingIsCoherent(View(), Ids(accounts), Ids(byHandle), acc.id);
      }
      Forget(acc);
    }

    /** No other key leads to the account. */
    ghost predicate OnlyKeys(acc: Account)
      reads this, byID.Values, acc
    {
      && Shared() && Holds(acc) && acc.handle == Lower(acc.handle) != ""
      && (forall e :: e in accounts && accounts[e].id == acc.id ==> e == acc.email != "")
      && (forall h :: h in byHandle && byHandle[h].id == acc.id ==> h == acc.handle)
    }

    method Forget(acc: Account)
      modifies this
      ensures accounts == if acc.email != "" then old(accounts) - {acc.email} else old(accounts)
      ensures byHandle == if acc.handle != "" then old(byHandle) - {acc.handle, Lower(acc.handle)} else old(byHandle)
      ensures byID == old(byID) - {acc.id}
      ensures Ids(accounts) == if acc.email != "" then Ids(old(accounts)) - {acc.email} else Ids(old(accounts))
      ensures Ids(byHandle) == if acc.handle != "" then Ids(old(byHandle)) - {acc.handle, Lower(acc.handle)}
                               else Ids(old(byHandle))
      ensures old(OnlyKeys(acc)) ==>
                Shared() && View() == old(View()) - {acc.id}
    {
      ForgetNames(acc);
      ForgetID(acc);
    }

    /** No name leads to the account. */
    ghost predicate Nameless(acc: Account)
      reads this, byID.Values, acc
    {
      && Shared()
      && (forall e :: e in accounts ==> accounts[e].id != acc.id)
      && (forall h :: h in byHandle ==> byHandle[h].id != acc.id)
    }

    method ForgetID(acc: Account)
      modifies this`byID
      ensures byID == old(byID) - {acc.id}
      ensures old(Nameless(acc)) ==> Shared() && View() == old(View()) - {acc.id}
    {
      byID := byID - {acc.id};
    }

    lemma OnlyByName(acc: Account)
      requires Valid() && Holds(acc)
      ensures OnlyKeys(acc) && View()[acc.id] == acc.Snapshot()
    {
      DroppingIsCoherent(View(), Ids(accounts), Ids(byHandle), acc.id);
      assert View()[acc.id] == acc.Snapshot();
      forall e | e in accounts && accounts[e].id == acc.id ensures e == acc.email != "" {
        assert Ids(accounts)[e] == acc.id;
      }
      forall h | h in byHandle && byHandle[h].id == acc.id ensures h == acc.handle {
        assert Ids(byHandle)[h] == acc.id;
      }
    }

    method ForgetNames(acc: Account)
      modifies this`accounts, this`byHandle
      ensures accounts == if acc.email != "" then old(accounts) - {acc.email} else old(accounts)
      ensures byHandle == if acc.handle != "" then old(byHandle) - {acc.handle, Lower(acc.handle)} else old(byHandle)
      ensures Ids(accounts) == if acc.email != "" then Ids(old(accounts)) - {acc.email} else Ids(old(accounts))
      ensures Ids(byHandle) == if acc.handle != "" then Ids(old(byHandle)) - {acc.handle, Lower(acc.handle)}
                               else Ids(old(byHandle))
      ensures old(OnlyKeys(acc)) ==> Nameless(acc) && View() == old(View())
    {
      ForgetEmail(acc);
      ForgetHandle(acc);
    }

    method ForgetEmail(acc: Account)
      modifies this`accounts
      ensures accounts == if acc.email != "" then old(accounts) - {acc.email} else old(accounts)
      ensures Ids(accounts) == if acc.email != "" then Ids(old(accounts)) - {acc.email} else Ids(old(accounts))
      ensures old(Shared() && forall e :: e in accounts && accounts[e].id == acc.id ==> e == acc.email != "") ==>
                Shared() && forall e :: e in accounts ==> accounts[e].id != acc.id
    {
      IdsWithout(accounts, {acc.email});
      if acc.email != "" {
        accounts := accounts - {acc.email};
      }
    }

    method ForgetHandle(acc: Account)
      modifies this`byHandle
      ensures byHandle == if acc.handle != "" then old(byHandle) - {acc.handle, Lower(acc.handle)} else old(byHandle)
      ensures Ids(byHandle) == if acc.handle != "" then Ids(old(byHandle)) - {acc.handle, Lower(acc.handle)}
                               else Ids(old(byHandle))
      ensures acc.handle != "" && old(Shared() && forall h :: h in byHandle && byHandle[h].id == acc.id ==>
                                                              h == acc.handle) ==>
                Shared() && forall h :: h in byHandle ==> byHandle[h].id != acc.id
    {
      IdsWithout(byHandle, {acc.handle, Lower(acc.handle)});
      if acc.handle != "" {
        byHandle := byHandle - {acc.handle};
        byHandle := byHandle - {Lower(acc.handle)};
        assert byHandle == old(byHandle) - {acc.handle, Lower(acc.handle)};
      }
    }

    /** No name leads to an account like this one. */
    ghost predicate IsNew(p: Persisted)
      reads this, byID.Values
    {
      && p.id !in byID && p.handle != "" && Lower(p.handle) == p.handle
      && !EmailUsed(View(), p.email) && !HandleUsed(View(), p.handle)
    }

    method EnterAccount(p: Persisted) returns (acc: Account)
      modifies this
      ensures fresh(acc) && byID == old(byID)[p.id := acc]
      ensures old(Shared()) && p.id !in old(byID) && p.handle != "" && Lower(p.handle) == p.handle ==>
                && Shared() && View() == old(View())[p.id := p]
                && Ids(accounts) == (if p.email == "" then old(Ids(accounts)) else old(Ids(accounts))[p.email := p.id])
                && Ids(byHandle) == old(Ids(byHandle))[p.handle := p.id]
    {
      acc := new Account(p);
      EnterNames(acc);
    }

    /** The account is indexed, and the names lead to it. */
    method EnterNames(acc: Account)
      modifies this
      ensures byID == old(byID)[acc.id := acc]
      ensures accounts == if acc.email == "" then old(accounts) else old(accounts)[acc.email := acc]
      ensures acc.handle != "" && Lower(acc.handle) == acc.handle ==>
                && byHandle == old(byHandle)[acc.handle := acc]
                && Ids(byHandle) == old(Ids(byHandle))[acc.handle := acc.id]
      ensures Ids(accounts) == if acc.email == "" then old(Ids(accounts)) else old(Ids(accounts))[acc.email := acc.id]
    {
      IndexAccount(acc);
      IdsWith(old(accounts), acc.email, acc);
      IdsWith(old(byHandle), acc.handle, acc);
    }

    method AddAccount(p: Persisted) returns (acc: Account)
      modifies this
      ensures fresh(acc) && byID == old(byID)[p.id := acc]
      ensures old(Valid() && IsNew(p)) ==> Valid() && View() == old(View())[p.id := p]
    {
      if Valid() && IsNew(p) {
        AddingIsCoherent(View(), Ids(accounts), Ids(byHandle), p);
      }
      acc := EnterAccount(p);
    }

    /** A new account is only added when neither its address nor its handle leads to another one; `id` is new. */
    method Register(id: string, handle: string, email: string, name: string, password: string, passwordHash: string,
                    base: string)
      returns (r: Registration)
      requires Valid() && id !in byID
      modifies this
      ensures Valid()
      ensures var h, e := ChosenHandle(handle, email), NormalEmail(email);
              && r == (if h == "" || password == "" then Missing
                       else if h in RESERVED then Reserved
                       else if EmailUsed(old(View()), e) then Exists
                       else if HandleUsed(old(View()), h) then Taken
                       else Registered)
              && View() == if r == Registered
                           then old(View())[id := NewAccount(id, h, e, name, passwordHash, base)]
                           else old(View())
    {
      var e := NormalEmail(email);
      var h := SanitizeSlug(handle);
      if h == "" && e != "" {
        h := SanitizeSlug(BeforeAt(e));
      }
      if h == "" || password == "" {
        return Missing;
      }
      if h in RESERVED {
        return Reserved;
      }
      EmailLeads(View(), Ids(accounts), Ids(byHandle), e);
      HandleLeads(View(), Ids(accounts), Ids(byHandle), h);
      if e != "" {
        if e in accounts {
          return Exists;
        }
      }
      if h in byHandle {
        return Taken;
      }
      SlugIsLower(handle);
      SlugIsLower(BeforeAt(e));
      var acc := AddAccount(NewAccount(id, h, e, name, passwordHash, base));
      return Registered;
    }

    method FindAccount(email: string, handle: string) returns (acc: Account?)
      requires Valid()
      ensures acc != null ==> Holds(acc)
      ensures Found(View(), NormalEmail(email), SanitizeSlug(handle), if acc == null then None else Some(acc.id))
    {
      var e := NormalEmail(email);
      EmailLeads(View(), Ids(accounts), Ids(byHandle), e);
      HandleLeads(View(), Ids(accounts), Ids(byHandle), SanitizeSlug(handle));
      HandleLeads(View(), Ids(accounts), Ids(byHandle), SanitizeSlug(e));
      if e != "" {
        if e in accounts {
          return accounts[e];
        }
      }
      var h := SanitizeSlug(handle);
      if h != "" {
        if h in byHandle {
          return byHandle[h];
        }
      }
      if e != "" {
        if SanitizeSlug(e) in byHandle {
          return byHandle[SanitizeSlug(e)];
        }
      }
      return null;
    }

    /** The e-mail of an account changes, unless another account has the new one. */
    method ReindexEmail(acc: Account, email: string) returns (ok: bool)
      requires Valid() && Holds(acc)
      modifies this`accounts, acc`email
      ensures Valid()
      ensures ok <==> email == old(acc.email) || !EmailUsed(old(View()), email)
      ensures View() == if ok then old(View())[acc.id := old(acc.Snapshot()).(email := email)] else old(View())
    {
      EmailLeads(View(), Ids(accounts), Ids(byHandle), email);
      ReindexingIsCoherent(View(), Ids(accounts), Ids(byHandle), acc.id, email);
      if email == acc.email {
        assert old(View())[acc.id := old(acc.Snapshot()).(email := email)] == View();
        return true;
      }
      if email != "" {
        if email in accounts && accounts[email].id != acc.id {
          return false;
        }
      }
      MoveEmail(acc, email);
      return true;
    }

    /** The end of it. */
    method MoveEmail(acc: Account, email: string)
      requires Shared() && Holds(acc)
      modifies this`accounts, acc`email
      ensures Shared()
      ensures View() == old(View())[acc.id := old(acc.Snapshot()).(email := email)]
      ensures Ids(accounts) == Reindexed(old(Ids(accounts)), acc.id, old(acc.email), email)
    {
      UnlinkEmail(acc.email);
      acc.email := email;
      LinkEmail(acc);
    }

    method UnlinkEmail(email: string)
      modifies this`accounts
      ensures accounts == if email == "" then old(accounts) else old(accounts) - {email}
      ensures Ids(accounts) == if email == "" then Ids(old(accounts)) else Ids(old(accounts)) - {email}
    {
      if email != "" {
        accounts := accounts - {email};
      }
    }

    method LinkEmail(acc: Account)
      modifies this`accounts
      ensures accounts == if acc.email == "" then old(accounts) else old(accounts)[acc.email := acc]
      ensures Ids(accounts) == if acc.email == "" then Ids(old(accounts)) else Ids(old(accounts))[acc.email := acc.id]
    {
      if acc.email != "" {
        accounts := accounts[acc.email := acc];
      }
    }

    method Save() returns (st: seq<Persisted>)
      requires Valid()
      ensures WellFormed(st) && ById(st) == View()
    {
      st := [];
      var ids := byID.Keys;
      ghost var done: set<string> := {};
      while ids != {}
        invariant ids + done == byID.Keys && ids !! done
        invariant forall i :: i in done ==> byID[i].Snapshot() in st
        invariant forall k :: 0 <= k < |st| ==> st[k].id in done && st[k] == byID[st[k].id].Snapshot()
        invariant DistinctIds(st)
        decreases ids
      {
        var i :| i in ids;
        st := st + [byID[i].Snapshot()];
        ids := ids - {i};
        done := done + {i};
      }
      assert done == byID.Keys;
      ByIdIs(st, View());
      SavedIsWellFormed(st, Ids(accounts), Ids(byHandle));
    }

    /** What a new service does with the saved accounts. */
    method Load(st: seq<Persisted>)
      requires Valid() && View() == map[]
      modifies this
      ensures WellFormed(st) ==> Valid() && View() == ById(st)
    {
      for k := 0 to |st|
        invariant WellFormed(st) ==> Valid() && View() == ById(st[..k])
      {
        if WellFormed(st) {
          NextIsNew(st, k);
        }
        var acc := AddAccount(st[k]);
      }
      assert st[..|st|] == st;
    }
  }

  function Ids(m: map<string, Account>): map<string, string> { map k | k in m :: m[k].id }

  /** A service that stops and starts again has the same accounts, and finds them the same way. */
  method Restart(d: Directory) returns (next: Directory)
    requires d.Valid()
    ensures fresh(next) && next.Valid() && next.View() == d.View()
  {
    var st := d.Save();
    ghost var view := d.View();
    next := Loaded(st);
    assert d.View() == view;
  }

  method Loaded(st: seq<Persisted>) returns (next: Directory)
    ensures fresh(next) && (WellFormed(st) ==> next.Valid() && next.View() == ById(st))
  {
    next := new Directory();
    next.Load(st);
  }

  lemma IdsWith(m: map<string, Account>, k: string, a: Account)
    ensures Ids(m[k := a]) == Ids(m)[k := a.id]
  {
  }

  lemma IdsWithout(m: map<string, Account>, ks: set<string>)
    ensures Ids(m - ks) == Ids(m) - ks
  {
  }

  ghost predicate Coherent(v: map<string, Persisted>, emails: map<string, string>, handles: map<string, string>) {
    && (forall i :: i in v ==> v[i].id == i && v[i].handle != "" && Lower(v[i].handle) == v[i].handle)
    && (forall e :: e in emails ==> e != "" && emails[e] in v && v[emails[e]].email == e)
    && (forall i :: i in v && v[i].email != "" ==> v[i].email in emails && emails[v[i].email] == i)
    && (forall h :: h in handles ==> handles[h] in v && v[handles[h]].handle == h)
    && (forall i :: i in v ==> v[i].handle in handles && handles[v[i].handle] == i)
  }

  lemma EmailLeads(v: map<string, Persisted>, emails: map<string, string>, handles: map<string, string>, e: string)
    requires Coherent(v, emails, handles)
    ensures EmailUsed(v, e) <==> e in emails
  {
  }

  lemma HandleLeads(v: map<string, Persisted>, emails: map<string, string>, handles: map<string, string>, h: string)
    requires Coherent(v, emails, handles)
    ensures HandleUsed(v, h) <==> h in handles
  {
  }

  /** The account that a search must find is one account. */
  lemma FoundIsOne(v: map<string, Persisted>, emails: map<string, string>, handles: map<string, string>,
                   e: string, h: string, r: Option<string>, q: Option<string>)
    requires Coherent(v, emails, handles) && Found(v, e, h, r) && Found(v, e, h, q)
    ensures r == q
  {
  }

  lemma AddingIsCoherent(v: map<string, Persisted>, emails: map<string, string>, handles: map<string, string>,
                         p: Persisted)
    requires Coherent(v, emails, handles)
    requires p.id !in v && p.handle != "" && Lower(p.handle) == p.handle
             && !EmailUsed(v, p.email) && !HandleUsed(v, p.handle)
    ensures Coherent(v[p.id := p], if p.email == "" then emails else emails[p.email := p.id], handles[p.handle := p.id])
  {
  }

  lemma DroppingIsCoherent(v: map<string, Persisted>, emails: map<string, string>,
                           handles: map<string, string>, i: string)
    requires Coherent(v, emails, handles) && i in v
    ensures Coherent(v - {i}, if v[i].email == "" then emails else emails - {v[i].email},
                     handles - {v[i].handle, Lower(v[i].handle)})
    ensures forall e :: e in emails && emails[e] == i ==> e == v[i].email
    ensures forall h :: h in handles && handles[h] == i ==> h == v[i].handle
  {
  }

  function Reindexed(emails: map<string, string>, id: string, was: string, email: string): map<string, string> {
    var without := if was == "" then emails else emails - {was};
    if email == "" then without else without[email := id]
  }

  lemma ReindexingIsCoherent(v: map<string, Persisted>, emails: map<string, string>, handles: map<string, string>,
                             i: string, email: string)
    requires Coherent(v, emails, handles) && i in v
    ensures email == v[i].email || !EmailUsed(v, email) ==>
              Coherent(v[i := v[i].(email := email)], Reindexed(emails, i, v[i].email, email), handles)
  {
  }

  /** No two accounts share an e-mail or a handle. */
  lemma NothingShared(v: map<string, Persisted>, emails: map<string, string>, handles: map<string, string>,
                      i: string, j: string)
    requires Coherent(v, emails, handles) && i in v && j in v
    ensures v[i].handle == v[j].handle ==> i == j
    ensures v[i].email == v[j].email != "" ==> i == j
  {
    assert handles[v[i].handle] == i && handles[v[j].handle] == j;
  }

  predicate EmailUsed(v: map<string, Persisted>, email: string) {
    email != "" && exists i :: i in v && v[i].email == email
  }

  predicate HandleUsed(v: map<string, Persisted>, handle: string) { exists i :: i in v && v[i].handle == handle }

  /** The account that a search must find among all of them: first by e-mail, then by handle, then by the
      handle that the e-mail would give. */
  ghost predicate Found(v: map<string, Persisted>, e: string, h: string, r: Option<string>) {
    if EmailUsed(v, e) then r.Some? && r.value in v && v[r.value].email == e
    else if h != "" && HandleUsed(v, h) then r.Some? && r.value in v && v[r.value].handle == h
    else if e != "" && HandleUsed(v, SanitizeSlug(e))
         then r.Some? && r.value in v && v[r.value].handle == SanitizeSlug(e)
    else r == None
  }

  ghost predicate DistinctIds(st: seq<Persisted>) { forall i, j :: 0 <= i < j < |st| ==> st[i].id != st[j].id }

  /** Saved accounts that no two of which share an id, a handle or an e-mail. */
  ghost predicate WellFormed(st: seq<Persisted>) {
    && DistinctIds(st)
    && (forall i :: 0 <= i < |st| ==> st[i].handle != "" && Lower(st[i].handle) == st[i].handle)
    && (forall i, j :: 0 <= i < |st| && 0 <= j < |st| && i != j ==> st[i].handle != st[j].handle)
    && (forall i, j :: 0 <= i < |st| && 0 <= j < |st| && i != j && st[i].email != "" ==> st[i].email != st[j].email)
  }

  /** The saved accounts by their ids, a later one over an earlier one. */
  function ById(st: seq<Persisted>): map<string, Persisted> {
    if st == [] then map[] else ById(st[..|st| - 1])[st[|st| - 1].id := st[|st| - 1]]
  }

  lemma {:induction false} ByIdHas(st: seq<Persisted>, i: string)
    ensures i in ById(st) <==> exists k :: 0 <= k < |st| && st[k].id == i
    ensures i in ById(st) ==> exists k :: 0 <= k < |st| && st[k] == ById(st)[i] && st[k].id == i
  {
    if st != [] {
      var init := st[..|st| - 1];
      ByIdHas(init, i);
      if st[|st| - 1].id != i && i in ById(init) {
        var k :| 0 <= k < |init| && init[k] == ById(init)[i] && init[k].id == i;
        assert st[k] == init[k];
      }
      if k :| 0 <= k < |st| && st[k].id == i && k < |init| {
        assert init[k] == st[k];
      }
    }
  }

  lemma ByIdAt(st: seq<Persisted>, k: nat)
    requires DistinctIds(st) && k < |st|
    ensures st[k].id in ById(st) && ById(st)[st[k].id] == st[k]
  {
    ByIdHas(st, st[k].id);
    var j :| 0 <= j < |st| && st[j] == ById(st)[st[k].id] && st[j].id == st[k].id;
  }

  lemma SavedIsWellFormed(st: seq<Persisted>, emails: map<string, string>, handles: map<string, string>)
    requires DistinctIds(st) && Coherent(ById(st), emails, handles)
    ensures WellFormed(st)
  {
    forall i | 0 <= i < |st| ensures st[i].id in ById(st) && ById(st)[st[i].id] == st[i] {
      ByIdAt(st, i);
    }
    forall i, j | 0 <= i < |st| && 0 <= j < |st| && i != j ensures st[i].id != st[j].id {
      assert if i < j then st[i].id != st[j].id else st[j].id != st[i].id;
    }
    forall i, j | 0 <= i < |st| && 0 <= j < |st| && i != j
      ensures st[i].handle != st[j].handle && (st[i].email != "" ==> st[i].email != st[j].email)
    {
      NothingShared(ById(st), emails, handles, st[i].id, st[j].id);
    }
  }

  lemma NextIsNew(st: seq<Persisted>, k: nat)
    requires WellFormed(st) && k < |st|
    ensures var v := ById(st[..k]);
            && st[k].id !in v && !EmailUsed(v, st[k].email) && !HandleUsed(v, st[k].handle)
            && ById(st[..k + 1]) == v[st[k].id := st[k]]
  {
    assert st[..k + 1][..k] == st[..k];
    var v := ById(st[..k]);
    forall i
      ensures i in v ==>
                i != st[k].id && v[i].handle != st[k].handle && (st[k].email != "" ==> v[i].email != st[k].email)
    {
      ByIdHas(st[..k], i);
    }
  }

  lemma ByIdIs(st: seq<Persisted>, v: map<string, Persisted>)
    requires DistinctIds(st) && forall i :: i in v ==> v[i] in st && v[i].id == i
    requires forall k :: 0 <= k < |st| ==> st[k].id in v && st[k] == v[st[k].id]
    ensures ById(st) == v
  {
    forall i ensures i in ById(st) <==> i in v {
      ByIdHas(st, i);
      if i in v {
        var k :| 0 <= k < |st| && st[k] == v[i];
        ByIdAt(st, k);
      }
      if i in ById(st) {
        var k :| 0 <= k < |st| && st[k] == ById(st)[i] && st[k].id == i;
      }
    }
    forall i | i in v ensures ById(st)[i] == v[i] {
      var k :| 0 <= k < |st| && st[k] == v[i];
      ByIdAt(st, k);
    }
  }

  const RESERVED := {"idp", "agents", "audit", "notifications", "oauth", "health", "app", "i", "static", "api", "admin",
                     "www", "well-known", "welcome", "dashboard", "login", "mcp", "records", "share", "conversations",
                     "reset", "password"}

  /** strings.Split(email, "@")[0] */
  function BeforeAt(email: string): string {
    var i := IndexByte(email, '@');
    if i < 0 then email else email[..i]
  }

  function ChosenHandle(handle: string, email: string): string {
    var h, e := SanitizeSlug(handle), NormalEmail(email);
    if h == "" && e != "" then SanitizeSlug(BeforeAt(e)) else h
  }

  function WebIDOf(base: string, handle: string): string { base + "/" + handle + "/profile/card#me" }

  function NewAccount(id: string, handle: string, email: string, name: string, passwordHash: string,
                      base: string): Persisted {
    Persisted(id, handle, email, if name == "" then handle else name, passwordHash, 0, WebIDOf(base, handle))
  }

  lemma SlugIsLower(s: string)
    ensures Lower(SanitizeSlug(s)) == SanitizeSlug(s)
  {
    KeptIsSlug(Lower(s));
  }

  lemma {:induction false} KeptIsSlug(s: string)
    ensures forall i :: 0 <= i < |KeepSlug(s)| ==>
              var c := KeepSlug(s)[i]; 'a' <= c <= 'z' || '0' <= c <= '9' || c == '-'
  {
    if s != "" {
      KeptIsSlug(s[..|s| - 1]);
    }
  }
}
