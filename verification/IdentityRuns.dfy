/** Sign-in safety over whole runs of the identity service, restarts included. */
module IdentityRuns {
  import opened Text
  import opened Accounts
  import opened Identity

  // ----- Events -----

  /** What a password change has written when it is stopped: it writes the grants, if any are hit, then the
      accounts, and a reset then the resets. */
  datatype Written = Nothing | Grants | Accounts

  /** What happens under the lock, one at a time. Tokens are issued outside of it, at any moment. `Save` is any
      other write of the accounts file: a registration that went through, or a profile update. A stop comes between
      two events, or between two of the writes of a password change; `again` is when the service is started over,
      and `ahead` the tokens that were issued in between, when the version in memory had already moved. */
  datatype Event =
    | Register(id: string, member: Member)
    | Save
    | Issue(token: Token)
    | RecordGrant(token: Token, now: int)
    | RevokeSpark(webID: string, jti: string)
    | OpenSession(cookie: string, id: string)
    | CloseSession(cookie: string)
    | IssueReset(id: string, hash: string, ttl: int, now: int)
    | ResetPassword(hash: string, now: int)
    | ChangePassword(id: string)
    | Restart(now: int)
    | StopInReset(hash: string, now: int, written: Written, ahead: set<Token>, again: int)
    | StopInChange(id: string, written: Written, ahead: set<Token>, again: int)

  /** The effect of an event. The guards are those of the code: a new account needs a free handle, and has the
      WebID of its handle; a token carries the version that counts when it is issued; names drawn at random are new. */
  ghost predicate Next(base: string, s: State, e: Event, s': State) {
    match e
    case Register(id, m) =>
      && id !in s.members && m == Member(m.handle, WebIDOf(base, m.handle), 0)
      && (forall i :: i in s.members ==> s.members[i].handle != m.handle)
      && s' == MemberAdded(s, id, m)
    case Save => s' == Saved(s)
    case Issue(t) => s' == s && t.version == VersionOf(s.versions, t.webID)
    case RecordGrant(t, now) => t.jti != "" && t.jti !in s.grants && s' == GrantRecorded(s, t, now)
    case RevokeSpark(webID, jti) => s' == GrantsRevoked(s, webID, jti)
    case OpenSession(cookie, id) => s' == s.(sessions := s.sessions[cookie := id])
    case CloseSession(cookie) => s' == s.(sessions := s.sessions - {cookie})
    case IssueReset(id, hash, ttl, now) => id in s.members && hash != "" && s' == ResetIssued(s, id, hash, ttl, now)
    case ResetPassword(hash, now) => s' == PasswordReset(s, hash, now)
    case ChangePassword(id) => id in s.members && s' == Saved(Invalidated(s, id))
    case Restart(now) => Restarted(s.disk, now, s')
    case StopInReset(hash, now, written, ahead, again) =>
      Consumable(s, hash, now) && Stopped(Consumed(s, hash), s.resets[hash].account, written, ahead, again, s')
    case StopInChange(id, written, ahead, again) => id in s.members && Stopped(s, id, written, ahead, again, s')
  }

  /** A password change that is stopped, and the service started over. */
  ghost predicate Stopped(s: State, id: string, written: Written, ahead: set<Token>, again: int, s': State)
    requires id in s.members
  {
    && (forall t :: t in ahead ==> t.version == VersionOf(Invalidated(s, id).versions, t.webID))
    && Restarted(LeftBy(s, id, written), again, s')
  }

  /** What it leaves in the files. */
  function LeftBy(s: State, id: string, written: Written): Disk
    requires id in s.members
  {
    match written
    case Nothing => s.disk
    case Grants => Invalidated(s, id).disk
    case Accounts => Saved(Invalidated(s, id)).disk
  }

  /** The service is started over. */
  predicate Stops(e: Event) { e.Restart? || e.StopInReset? || e.StopInChange? }

  const EMPTY := State(map[], {}, map[], map[], map[], map[], Disk(map[], map[], map[]))

  /** `states[k]` is the state after the first `k` events. */
  ghost predicate IsRun(base: string, events: seq<Event>, states: seq<State>) {
    && |states| == |events| + 1 && states[0] == EMPTY
    && forall k :: 0 <= k < |events| ==> Next(base, states[k], events[k], states[k + 1])
  }

  // ----- Password generations -----

  /** Accounts are known by their handles, and so by their WebIDs. */
  ghost predicate Named(base: string, members: map<string, Member>) {
    && (forall i :: i in members ==> members[i].webID == WebIDOf(base, members[i].handle) != "")
    && (forall i, j :: i in members && j in members && members[i].webID == members[j].webID ==> i == j)
  }

  /** The version that counts for an agent is that of the account with its WebID. */
  ghost predicate Counted(versions: map<string, nat>, members: map<string, Member>) {
    && (forall i :: i in members ==> VersionOf(versions, members[i].webID) == members[i].version)
    && (forall w :: VersionOf(versions, w) > 0 ==> exists i :: i in members && members[i].webID == w)
  }

  /** The accounts file has what is in memory, but for accounts that were never saved and whose password
      never changed. */
  ghost predicate OnDisk(members: map<string, Member>, saved: map<string, Member>) {
    && (forall i :: i in saved ==> i in members && saved[i] == members[i])
    && (forall i :: i in members && members[i].version > 0 ==> i in saved)
  }

  ghost predicate Tracks(base: string, s: State) {
    Named(base, s.members) && Counted(s.versions, s.members) && OnDisk(s.members, s.disk.members)
  }

  lemma WebIDsDiffer(base: string, a: string, b: string)
    ensures WebIDOf(base, a) == WebIDOf(base, b) ==> a == b
    ensures WebIDOf(base, a) != ""
  {
    var tail := "/profile/card#me";
    if WebIDOf(base, a) == WebIDOf(base, b) {
      assert |a| == |b|;
      assert a == WebIDOf(base, a)[|base| + 1..|base| + 1 + |a|];
      assert b == WebIDOf(base, b)[|base| + 1..|base| + 1 + |b|];
    }
  }

  /** The account that an event sets a new password for. */
  function AccountOf(s: State, e: Event): Option<string> {
    match e
    case ResetPassword(hash, now) => if Consumable(s, hash, now) then Some(s.resets[hash].account) else None
    case StopInReset(hash, now, _, _, _) => if Consumable(s, hash, now) then Some(s.resets[hash].account) else None
    case ChangePassword(id) => Some(id)
    case StopInChange(id, _, _, _) => Some(id)
    case _ => None
  }

  /** The new password is lost with the service. */
  predicate Lost(e: Event) { (e.StopInReset? || e.StopInChange?) && !e.written.Accounts? }

  function AgentOf(s: State, e: Event): Option<string> {
    var id := AccountOf(s, e);
    if id.Some? && id.value in s.members then Some(s.members[id.value].webID) else None
  }

  /** The agent whose password an event changes for good. */
  function ChangedBy(s: State, e: Event): Option<string> { if Lost(e) then None else AgentOf(s, e) }

  lemma BumpCounts(versions: map<string, nat>, members: map<string, Member>, id: string)
    requires Counted(versions, members) && id in members && members[id].webID != ""
    requires forall i :: i in members && members[i].webID == members[id].webID ==> i == id
    ensures var m := members[id];
            var next := Forward(versions, m.webID, m.version + 1);
            && Counted(next, members[id := m.(version := m.version + 1)])
            && forall w :: VersionOf(next, w) == VersionOf(versions, w) + if w == m.webID then 1 else 0
  {
    var m := members[id];
    var next, members' := Forward(versions, m.webID, m.version + 1), members[id := m.(version := m.version + 1)];
    assert next == versions[m.webID := m.version + 1];
    forall w | VersionOf(next, w) > 0 ensures exists i :: i in members' && members'[i].webID == w {
      if w == m.webID {
        assert members'[id].webID == w;
      } else {
        assert VersionOf(versions, w) > 0;
        var i :| i in members && members[i].webID == w;
        assert members'[i].webID == w;
      }
    }
  }

  lemma BumpNames(base: string, members: map<string, Member>, id: string)
    requires Named(base, members) && id in members
    ensures Named(base, members[id := members[id].(version := members[id].version + 1)])
  {
  }

  lemma BumpedOnDisk(members: map<string, Member>)
    ensures OnDisk(members, members)
  {
  }

  /** How the versions move. */
  ghost predicate Moves(a: map<string, nat>, b: map<string, nat>, hit: Option<string>) {
    forall w :: VersionOf(b, w) == VersionOf(a, w) + if hit == Some(w) then 1 else 0
  }

  lemma InvalidationCounts(base: string, s: State, id: string)
    requires Tracks(base, s) && id in s.members
    ensures var s' := Invalidated(s, id);
            Tracks(base, Saved(s')) && Moves(s.versions, s'.versions, Some(s.members[id].webID))
  {
    BumpCounts(s.versions, s.members, id);
    BumpNames(base, s.members, id);
    InvalidatedParts(s, id);
    BumpedOnDisk(Invalidated(s, id).members);
  }

  lemma InvalidatedParts(s: State, id: string)
    requires id in s.members
    ensures var m, s' := s.members[id], Invalidated(s, id);
            && s'.versions == Forward(s.versions, m.webID, m.version + 1)
            && s'.members == s.members[id := m.(version := m.version + 1)]
            && Saved(s').members == s'.members == Saved(s').disk.members && Saved(s').versions == s'.versions
            && s'.disk.members == s.disk.members
  {
  }

  lemma RestartTracks(base: string, s: State, now: int, s': State)
    requires Tracks(base, s) && Restarted(s.disk, now, s')
    ensures Tracks(base, s') && Moves(s.versions, s'.versions, None)
  {
    forall w ensures VersionOf(s'.versions, w) == VersionOf(s.versions, w) {
      assert IsHighest(s.disk.members, w, VersionOf(s'.versions, w));
    }
  }

  lemma StopTracks(base: string, s: State, id: string, written: Written, again: int, s': State)
    requires Tracks(base, s) && id in s.members && Restarted(LeftBy(s, id, written), again, s')
    ensures Tracks(base, s')
    ensures Moves(s.versions, s'.versions, if written.Accounts? then Some(s.members[id].webID) else None)
  {
    if written.Accounts? {
      SavedStopTracks(base, s, id, again, s');
    } else {
      LostStopTracks(base, s, id, written, again, s');
    }
  }

  lemma SavedStopTracks(base: string, s: State, id: string, again: int, s': State)
    requires Tracks(base, s) && id in s.members && Restarted(Saved(Invalidated(s, id)).disk, again, s')
    ensures Tracks(base, s') && Moves(s.versions, s'.versions, Some(s.members[id].webID))
  {
    InvalidationCounts(base, s, id);
    InvalidatedParts(s, id);
    RestartTracks(base, Saved(Invalidated(s, id)), again, s');
  }

  lemma LostStopTracks(base: string, s: State, id: string, written: Written, again: int, s': State)
    requires Tracks(base, s) && id in s.members && !written.Accounts? && Restarted(LeftBy(s, id, written), again, s')
    ensures Tracks(base, s') && Moves(s.versions, s'.versions, None)
  {
    var left := s.(disk := LeftBy(s, id, written));
    InvalidatedParts(s, id);
    SameTracks(base, s, left);
    RestartTracks(base, left, again, s');
  }

  lemma StopInResetTracks(base: string, s: State, e: Event, s': State)
    requires Tracks(base, s) && Next(base, s, e, s') && e.StopInReset?
    ensures Tracks(base, s') && Moves(s.versions, s'.versions, ChangedBy(s, e))
  {
    var c := Consumed(s, e.hash);
    SameTracks(base, s, c);
    StopTracks(base, c, s.resets[e.hash].account, e.written, e.again, s');
  }

  lemma RegisterCounts(versions: map<string, nat>, members: map<string, Member>, id: string, m: Member)
    requires Counted(versions, members) && id !in members && m.version == 0
    requires forall i :: i in members ==> members[i].webID != m.webID
    ensures Counted(versions, members[id := m])
  {
    var members' := members[id := m];
    forall w | VersionOf(versions, w) > 0 ensures exists i :: i in members' && members'[i].webID == w {
      var i :| i in members && members[i].webID == w;
      assert members'[i].webID == w;
    }
  }

  lemma RegisterTracks(base: string, s: State, id: string, m: Member)
    requires Tracks(base, s) && id !in s.members && m == Member(m.handle, WebIDOf(base, m.handle), 0)
    requires forall i :: i in s.members ==> s.members[i].handle != m.handle
    ensures Tracks(base, MemberAdded(s, id, m))
  {
    forall i | i in s.members ensures s.members[i].webID != m.webID {
      WebIDsDiffer(base, s.members[i].handle, m.handle);
    }
    WebIDsDiffer(base, m.handle, m.handle);
    RegisterCounts(s.versions, s.members, id, m);
  }

  lemma ResetCounts(base: string, s: State, hash: string, now: int)
    requires Tracks(base, s)
    ensures var s' := PasswordReset(s, hash, now);
            Tracks(base, s') && Moves(s.versions, s'.versions, ChangedBy(s, ResetPassword(hash, now)))
  {
    if Consumable(s, hash, now) {
      GoodResetCounts(base, s, hash, now);
    } else {
      SameTracks(base, s, PasswordReset(s, hash, now));
    }
  }

  lemma GoodResetCounts(base: string, s: State, hash: string, now: int)
    requires Tracks(base, s) && Consumable(s, hash, now)
    ensures var s' := PasswordReset(s, hash, now);
            Tracks(base, s') && Moves(s.versions, s'.versions, Some(s.members[s.resets[hash].account].webID))
  {
    var c, id := Consumed(s, hash), s.resets[hash].account;
    SameTracks(base, s, c);
    InvalidationCounts(base, c, id);
    SameTracks(base, Saved(Invalidated(c, id)), PasswordReset(s, hash, now));
  }

  lemma SameTracks(base: string, s: State, s': State)
    requires Tracks(base, s) && s'.versions == s.versions && s'.members == s.members
             && s'.disk.members == s.disk.members
    ensures Tracks(base, s')
  {
  }

  lemma SaveTracks(base: string, s: State)
    requires Tracks(base, s)
    ensures Tracks(base, Saved(s))
  {
    BumpedOnDisk(s.members);
  }

  /** Events that do not touch the accounts. */
  predicate Elsewhere(e: Event) {
    e.Issue? || e.RecordGrant? || e.RevokeSpark? || e.OpenSession? || e.CloseSession? || e.IssueReset?
  }

  lemma ElsewhereKeeps(base: string, s: State, e: Event, s': State)
    requires Next(base, s, e, s') && Elsewhere(e)
    ensures s'.versions == s.versions && s'.members == s.members && s'.disk.members == s.disk.members
  {
  }

  lemma StopInChangeTracks(base: string, s: State, e: Event, s': State)
    requires Tracks(base, s) && Next(base, s, e, s') && e.StopInChange?
    ensures Tracks(base, s') && Moves(s.versions, s'.versions, ChangedBy(s, e))
  {
    StopTracks(base, s, e.id, e.written, e.again, s');
  }

  lemma StopCounts(base: string, s: State, e: Event, s': State)
    requires Tracks(base, s) && Next(base, s, e, s') && Stops(e)
    ensures Tracks(base, s') && Moves(s.versions, s'.versions, ChangedBy(s, e))
  {
    if e.StopInReset? {
      StopInResetTracks(base, s, e, s');
    } else if e.StopInChange? {
      StopInChangeTracks(base, s, e, s');
    } else {
      RestartTracks(base, s, e.now, s');
    }
  }

  lemma ElsewhereCounts(base: string, s: State, e: Event, s': State)
    requires Tracks(base, s) && Next(base, s, e, s') && Elsewhere(e)
    ensures Tracks(base, s') && Moves(s.versions, s'.versions, ChangedBy(s, e))
  {
    ElsewhereKeeps(base, s, e, s');
    SameTracks(base, s, s');
  }

  lemma AccountsCount(base: string, s: State, e: Event, s': State)
    requires Tracks(base, s) && Next(base, s, e, s') && (e.Register? || e.Save?)
    ensures Tracks(base, s') && Moves(s.versions, s'.versions, ChangedBy(s, e))
  {
    if e.Register? {
      RegisterTracks(base, s, e.id, e.member);
    } else {
      SaveTracks(base, s);
    }
  }

  lemma ResetEventCounts(base: string, s: State, e: Event, s': State)
    requires Tracks(base, s) && Next(base, s, e, s') && e.ResetPassword?
    ensures Tracks(base, s') && Moves(s.versions, s'.versions, ChangedBy(s, e))
  {
    ResetCounts(base, s, e.hash, e.now);
  }

  lemma ChangeCounts(base: string, s: State, e: Event, s': State)
    requires Tracks(base, s) && Next(base, s, e, s') && e.ChangePassword?
    ensures Tracks(base, s') && Moves(s.versions, s'.versions, ChangedBy(s, e))
  {
    InvalidationCounts(base, s, e.id);
    InvalidatedParts(s, e.id);
  }

  /** Every event moves the version of an agent exactly when it changes that agent's password. */
  lemma StepCounts(base: string, s: State, e: Event, s': State)
    requires Tracks(base, s) && Next(base, s, e, s')
    ensures Tracks(base, s') && Moves(s.versions, s'.versions, ChangedBy(s, e))
  {
    if Stops(e) {
      StopCounts(base, s, e, s');
    } else if Elsewhere(e) {
      ElsewhereCounts(base, s, e, s');
    } else if e.Register? || e.Save? {
      AccountsCount(base, s, e, s');
    } else if e.ResetPassword? {
      ResetEventCounts(base, s, e, s');
    } else {
      ChangeCounts(base, s, e, s');
    }
  }

  lemma {:induction false} RunTracks(base: string, events: seq<Event>, states: seq<State>, k: nat)
    requires IsRun(base, events, states) && k <= |events|
    ensures Tracks(base, states[k])
  {
    if k > 0 {
      RunTracks(base, events, states, k - 1);
      StepCounts(base, states[k - 1], events[k - 1], states[k]);
    }
  }

  function ChangeOf(s: State, e: Event, webID: string): nat { if ChangedBy(s, e) == Some(webID) then 1 else 0 }

  /** How often an agent's password changed between two moments. */
  function Changes(events: seq<Event>, states: seq<State>, i: nat, k: nat, webID: string): nat
    requires i <= k <= |events| < |states|
  {
    if i == k then 0 else Changes(events, states, i, k - 1, webID) + ChangeOf(states[k - 1], events[k - 1], webID)
  }

  /** The version goes up by the change. */
  ghost predicate Counts(s: State, e: Event, s': State, w: string) {
    VersionOf(s'.versions, w) == VersionOf(s.versions, w) + ChangeOf(s, e, w)
  }

  lemma RunCounts(base: string, events: seq<Event>, states: seq<State>, k: nat, w: string)
    requires IsRun(base, events, states) && k < |events|
    ensures Counts(states[k], events[k], states[k + 1], w)
  {
    RunTracks(base, events, states, k);
    StepCounts(base, states[k], events[k], states[k + 1]);
  }

  lemma {:induction false} CountsAddUp(events: seq<Event>, states: seq<State>, i: nat, k: nat, w: string)
    requires i <= k <= |events| < |states|
    requires forall j :: i <= j < k ==> Counts(states[j], events[j], states[j + 1], w)
    ensures VersionOf(states[k].versions, w) == VersionOf(states[i].versions, w) + Changes(events, states, i, k, w)
  {
    if i < k {
      CountsAddUp(events, states, i, k - 1, w);
      assert Counts(states[k - 1], events[k - 1], states[k - 1 + 1], w);
    }
  }

  /** The version counts the changes, whatever else happens, restarts included. */
  lemma VersionsCountChanges(base: string, events: seq<Event>, states: seq<State>, i: nat, k: nat, w: string)
    requires IsRun(base, events, states) && i <= k <= |events|
    ensures VersionOf(states[k].versions, w) == VersionOf(states[i].versions, w) + Changes(events, states, i, k, w)
  {
    forall j | i <= j < k ensures Counts(states[j], events[j], states[j + 1], w) {
      RunCounts(base, events, states, j, w);
    }
    CountsAddUp(events, states, i, k, w);
  }

  // ----- Tokens -----

  function ParsedIn(s: State, t: Token, now: int): Parsed { ParsedToken(s.versions, s.revoked, t, now) }

  predicate IssuedBy(e: Event, t: Token) {
    (e.Issue? && e.token == t) || ((e.StopInReset? || e.StopInChange?) && t in e.ahead)
  }

  /** The token belongs to a password change that the stop undid. */
  predicate IsAhead(s: State, e: Event, t: Token) { Lost(e) && AgentOf(s, e) == Some(t.webID) }

  lemma StoppedVersions(base: string, s: State, id: string, written: Written, ahead: set<Token>, again: int, s': State,
                        t: Token)
    requires Tracks(base, s) && id in s.members && Stopped(s, id, written, ahead, again, s') && t in ahead
    ensures t.version == VersionOf(s'.versions, t.webID)
                         + if !written.Accounts? && s.members[id].webID == t.webID then 1 else 0
  {
    StopTracks(base, s, id, written, again, s');
    InvalidationCounts(base, s, id);
  }

  /** What a token is worth when it is issued. */
  lemma BornWith(base: string, s: State, e: Event, s': State, t: Token)
    requires Tracks(base, s) && Next(base, s, e, s') && IssuedBy(e, t)
    ensures t.version == VersionOf(s'.versions, t.webID) + if IsAhead(s, e, t) then 1 else 0
  {
    match e
    case StopInReset(hash, _, written, ahead, again) =>
      SameTracks(base, s, Consumed(s, hash));
      StoppedVersions(base, Consumed(s, hash), s.resets[hash].account, written, ahead, again, s', t);
    case StopInChange(id, written, ahead, again) => StoppedVersions(base, s, id, written, ahead, again, s', t);
    case _ =>
  }

  /** A token is accepted as long as it has not expired, its name was not revoked, and its agent's password did not
      change since it was issued; and no longer. If it was issued during a change that a stop undid, it is accepted
      between the next change and the one after that instead. */
  lemma TokenLife(base: string, events: seq<Event>, states: seq<State>, i: nat, k: nat, t: Token, now: int)
    requires IsRun(base, events, states) && i < k <= |events| && IssuedBy(events[i], t)
    ensures ParsedIn(states[k], t, now).Accepted?
            <==> && now < t.expires && !(t.jti != "" && t.jti in states[k].revoked)
                 && Changes(events, states, i + 1, k, t.webID) == if IsAhead(states[i], events[i], t) then 1 else 0
  {
    RunTracks(base, events, states, i);
    assert Next(base, states[i], events[i], states[i + 1]);
    BornWith(base, states[i], events[i], states[i + 1], t);
    VersionsCountChanges(base, events, states, i + 1, k, t.webID);
  }

  lemma {:induction false} ChangesAddUp(events: seq<Event>, states: seq<State>, i: nat, j: nat, k: nat, w: string)
    requires i <= j <= k <= |events| < |states|
    ensures Changes(events, states, i, k, w) == Changes(events, states, i, j, w) + Changes(events, states, j, k, w)
  {
    if j < k {
      ChangesAddUp(events, states, i, j, k - 1, w);
    }
  }

  /** Once a password has changed, no token issued before is accepted again, but for one that was issued during an
      earlier change that a stop undid, if this was the first change since. */
  lemma OldTokensStayRejected(base: string, events: seq<Event>, states: seq<State>, i: nat, j: nat, k: nat, t: Token,
                              now: int)
    requires IsRun(base, events, states) && i < j < k <= |events| && IssuedBy(events[i], t)
    requires ChangedBy(states[j], events[j]) == Some(t.webID)
    ensures ParsedIn(states[k], t, now).Accepted?
            <==> && IsAhead(states[i], events[i], t) && Changes(events, states, i + 1, k, t.webID) == 1
                 && now < t.expires && !(t.jti != "" && t.jti in states[k].revoked)
  {
    TokenLife(base, events, states, i, k, t, now);
    ChangedBetween(events, states, i + 1, j, k, t.webID);
  }

  /** Such a run: a token that is issued while a change is under way, the stop, and a change that goes through. */
  lemma AheadTokenRevives(base: string, id: string, handle: string, again: int, expires: int, now: int)
    returns (events: seq<Event>, states: seq<State>, t: Token)
    requires now < expires
    ensures IsRun(base, events, states) && |events| == 4
    ensures IssuedBy(events[2], t) && Lost(events[2]) && ChangedBy(states[3], events[3]) == Some(t.webID)
    ensures !ParsedIn(states[3], t, now).Accepted? && ParsedIn(states[4], t, now).Accepted?
  {
    var m := Member(handle, WebIDOf(base, handle), 0);
    WebIDsDiffer(base, handle, handle);
    t := Token(m.webID, 1, "", now, expires);
    var s1 := MemberAdded(EMPTY, id, m);
    var s2 := Saved(s1);
    var s3 := s2.(sessions := map[]);
    var s4 := Saved(Invalidated(s3, id));
    events := [Register(id, m), Save, StopInChange(id, Nothing, {t}, again), ChangePassword(id)];
    states := [EMPTY, s1, s2, s3, s4];
    StopsAgain(s2, id, t, again, s3);
  }

  lemma StopsAgain(s: State, id: string, t: Token, again: int, s': State)
    requires id in s.members && s.members[id].webID == t.webID != "" && s.members[id].version == 0 && t.version == 1
    requires s == Saved(MemberAdded(EMPTY, id, s.members[id])) && s' == s.(sessions := map[])
    ensures Stopped(s, id, Nothing, {t}, again, s')
  {
    assert RevokedNames(s.disk.grants) == {};
    assert Fresh(s.disk.resets, again) - {""} == map[];
  }

  lemma ChangedBetween(events: seq<Event>, states: seq<State>, i: nat, j: nat, k: nat, w: string)
    requires i <= j < k <= |events| < |states| && ChangedBy(states[j], events[j]) == Some(w)
    ensures Changes(events, states, i, k, w) > 0
  {
    ChangesAddUp(events, states, i, j, k, w);
    ChangesAddUp(events, states, j, j + 1, k, w);
    assert Changes(events, states, j, j + 1, w) == ChangeOf(states[j], events[j], w);
  }

  // ----- Spark grants -----

  /** The grants an event revokes. */
  function HitBy(s: State, e: Event): set<string> {
    match e
    case RevokeSpark(webID, jti) => Hit(s.grants, webID, jti) - {""}
    case StopInReset(_, _, Nothing, _, _) => {}
    case StopInChange(_, Nothing, _, _) => {}
    case _ => var w := AgentOf(s, e); if w.Some? then Hit(s.grants, w.value, "") - {""} else {}
  }

  /** What is revoked is what the grants say, in memory and in the file. */
  ghost predicate GrantsAgree(s: State) { s.revoked == RevokedNames(s.grants) && s.disk.grants == s.grants }

  lemma RevokedGrow(grants: map<string, Grant>, hit: set<string>)
    requires hit <= grants.Keys
    ensures RevokedNames(RevokeAll(grants, hit)) == RevokedNames(grants) + (hit - {""})
  {
  }

  lemma NothingHit(grants: map<string, Grant>)
    ensures RevokeAll(grants, {}) == grants
  {
  }

  lemma InvalidationRevokes(s: State, id: string)
    requires GrantsAgree(s) && id in s.members
    ensures var s' := Invalidated(s, id);
            GrantsAgree(s') && s'.revoked == s.revoked + (Hit(s.grants, s.members[id].webID, "") - {""})
  {
    RevokedGrow(s.grants, Hit(s.grants, s.members[id].webID, ""));
    NothingHit(s.grants);
  }

  lemma RecordingRevokesNothing(grants: map<string, Grant>, jti: string, g: Grant)
    requires jti !in grants && !g.revoked
    ensures RevokedNames(grants[jti := g]) == RevokedNames(grants)
  {
  }

  /** Every event revokes exactly the grants it hits, and a restart none. */
  lemma StepRevokes(base: string, s: State, e: Event, s': State)
    requires GrantsAgree(s) && Next(base, s, e, s')
    ensures GrantsAgree(s') && s'.revoked == s.revoked + HitBy(s, e)
  {
    match e
    case RecordGrant(t, now) => RecordingRevokesNothing(s.grants, t.jti, Grant(t.webID, now, t.expires, false));
    case RevokeSpark(webID, jti) => RevokedGrow(s.grants, Hit(s.grants, webID, jti));
    case ResetPassword(hash, now) =>
      if Consumable(s, hash, now) {
        InvalidationRevokes(Consumed(s, hash), s.resets[hash].account);
      }
    case ChangePassword(id) => InvalidationRevokes(s, id);
    case StopInReset(hash, _, _, _, _) => InvalidationRevokes(Consumed(s, hash), s.resets[hash].account);
    case StopInChange(id, _, _, _) => InvalidationRevokes(s, id);
    case _ =>
  }

  lemma {:induction false} RunGrantsAgree(base: string, events: seq<Event>, states: seq<State>, k: nat)
    requires IsRun(base, events, states) && k <= |events|
    ensures GrantsAgree(states[k])
  {
    if k > 0 {
      RunGrantsAgree(base, events, states, k - 1);
      StepRevokes(base, states[k - 1], events[k - 1], states[k]);
    } else {
      assert RevokedNames(map[]) == {};
    }
  }

  /** A revoked token stays revoked. */
  lemma {:induction false} RevocationLasts(base: string, events: seq<Event>, states: seq<State>, i: nat, k: nat,
                                           jti: string)
    requires IsRun(base, events, states) && i <= k <= |events| && jti in states[i].revoked
    ensures jti in states[k].revoked
  {
    if i < k {
      RevocationLasts(base, events, states, i, k - 1, jti);
      RunGrantsAgree(base, events, states, k - 1);
      StepRevokes(base, states[k - 1], events[k - 1], states[k]);
    }
  }

  // ----- Sessions -----

  /** What ends a session of an account: signing out, a password change, a restart. */
  predicate EndsSession(s: State, e: Event, cookie: string, id: string) {
    (e.CloseSession? && e.cookie == cookie) || Stops(e) || AccountOf(s, e) == Some(id)
  }

  predicate Opens(e: Event, cookie: string) { e.OpenSession? && e.cookie == cookie }

  lemma StepSession(base: string, s: State, e: Event, s': State, cookie: string, id: string)
    requires Next(base, s, e, s') && !Opens(e, cookie)
    ensures cookie in s'.sessions ==> cookie in s.sessions && s'.sessions[cookie] == s.sessions[cookie]
    ensures cookie in s.sessions && s.sessions[cookie] == id ==>
              (cookie in s'.sessions <==> !EndsSession(s, e, cookie, id))
  {
  }

  /** Nothing ends the session between two moments. */
  ghost predicate Undisturbed(events: seq<Event>, states: seq<State>, i: nat, k: nat, cookie: string, id: string)
    requires k <= |events| < |states|
  {
    forall x :: i < x < k ==> !EndsSession(states[x], events[x], cookie, id)
  }

  ghost predicate LoggedIn(s: State, cookie: string, id: string) { cookie in s.sessions && s.sessions[cookie] == id }

  lemma OpeningLogsIn(base: string, s: State, cookie: string, id: string, s': State)
    requires Next(base, s, OpenSession(cookie, id), s')
    ensures LoggedIn(s', cookie, id)
  {
  }

  /** What the cookie is worth: the session, or nothing. */
  ghost predicate Worth(s: State, cookie: string, id: string, live: bool) {
    if live then LoggedIn(s, cookie, id) else cookie !in s.sessions
  }

  lemma SessionStep(base: string, s: State, e: Event, s': State, cookie: string, id: string, live: bool)
    requires Next(base, s, e, s') && !Opens(e, cookie) && Worth(s, cookie, id, live)
    ensures Worth(s', cookie, id, live && !EndsSession(s, e, cookie, id))
  {
    StepSession(base, s, e, s', cookie, id);
  }

  /** A session lasts exactly until its account's password changes, it is signed out of, or the service restarts;
      after that nobody is signed in by its cookie. */
  lemma {:induction false} SessionLife(base: string, events: seq<Event>, states: seq<State>, i: nat, k: nat,
                                       cookie: string, id: string)
    requires IsRun(base, events, states) && i < k <= |events| && events[i] == OpenSession(cookie, id)
    requires NotReopened(events, i, k, cookie)
    ensures Worth(states[k], cookie, id, Undisturbed(events, states, i, k, cookie, id))
  {
    assert Next(base, states[k - 1], events[k - 1], states[k]);
    if i + 1 == k {
      OpeningLogsIn(base, states[i], cookie, id, states[k]);
    } else {
      SessionLife(base, events, states, i, k - 1, cookie, id);
      SessionStep(base, states[k - 1], events[k - 1], states[k], cookie, id,
                  Undisturbed(events, states, i, k - 1, cookie, id));
      assert Undisturbed(events, states, i, k, cookie, id)
             <==> Undisturbed(events, states, i, k - 1, cookie, id)
                    && !EndsSession(states[k - 1], events[k - 1], cookie, id);
    }
  }

  /** Cookies are random, so no other session is opened with the same one. */
  ghost predicate NotReopened(events: seq<Event>, i: nat, k: nat, cookie: string)
    requires k <= |events|
  {
    forall x :: i < x < k ==> !Opens(events[x], cookie)
  }

  // ----- Password resets -----

  /** At most one unused reset for each account. */
  ghost predicate OneUnused(resets: map<string, Reset>) {
    forall g, h :: g in resets && h in resets && !resets[g].used && !resets[h].used ==>
                     resets[g].account == resets[h].account ==> g == h
  }

  ghost predicate ResetsOk(s: State) { OneUnused(s.resets) && OneUnused(s.disk.resets) }

  lemma StepResets(base: string, s: State, e: Event, s': State)
    requires ResetsOk(s) && Next(base, s, e, s')
    ensures ResetsOk(s')
  {
    if Stops(e) {
      StopResets(base, s, e, s');
    } else if e.IssueReset? {
      IssuingIsOk(s, e.id, e.hash, e.ttl, e.now);
    } else if e.ResetPassword? {
      ResettingIsOk(s, e.hash, e.now);
    } else {
      assert s'.resets == s.resets && s'.disk.resets == s.disk.resets;
    }
  }

  lemma StopResets(base: string, s: State, e: Event, s': State)
    requires ResetsOk(s) && Next(base, s, e, s') && Stops(e)
    ensures ResetsOk(s')
  {
  }

  lemma IssuingIsOk(s: State, id: string, hash: string, ttl: int, now: int)
    requires ResetsOk(s)
    ensures ResetsOk(ResetIssued(s, id, hash, ttl, now))
  {
  }

  lemma ResettingIsOk(s: State, hash: string, now: int)
    requires ResetsOk(s)
    ensures ResetsOk(PasswordReset(s, hash, now))
  {
  }

  /** In every state that is reached, each account has at most one unused reset. */
  lemma {:induction false} AtMostOneUnused(base: string, events: seq<Event>, states: seq<State>, k: nat)
    requires IsRun(base, events, states) && k <= |events|
    ensures ResetsOk(states[k])
  {
    if k > 0 {
      AtMostOneUnused(base, events, states, k - 1);
      StepResets(base, states[k - 1], events[k - 1], states[k]);
    }
  }

  /** The reset with this hash is no good any more. */
  ghost predicate Spent(s: State, hash: string) {
    (hash in s.resets ==> s.resets[hash].used) && (hash in s.disk.resets ==> s.disk.resets[hash].used)
  }

  lemma StaysSpent(base: string, s: State, e: Event, s': State, hash: string)
    requires Spent(s, hash) && Next(base, s, e, s') && !(e.IssueReset? && e.hash == hash)
    ensures Spent(s', hash)
  {
  }

  lemma ConsumingSpends(s: State, hash: string, now: int)
    requires Consumable(s, hash, now)
    ensures Spent(PasswordReset(s, hash, now), hash)
  {
  }

  /** A reset with this hash sets a password at this point of the run, which is not lost. */
  predicate ConsumedAt(events: seq<Event>, states: seq<State>, k: nat, hash: string)
    requires k < |events| < |states|
  {
    var e := events[k];
    || (e.ResetPassword? && e.hash == hash && Consumable(states[k], hash, e.now))
    || (StoppedShort(e, hash) && Consumable(states[k], hash, e.now))
  }

  /** The reset was stopped between the write of the accounts and that of the resets. */
  predicate StoppedShort(e: Event, hash: string) { e.StopInReset? && e.written.Accounts? && e.hash == hash }

  predicate IssuedAt(events: seq<Event>, k: nat, hash: string)
    requires k < |events|
  {
    events[k].IssueReset? && events[k].hash == hash
  }

  /** No random token is drawn twice. */
  ghost predicate NeverAgain(events: seq<Event>) {
    forall i, j, h :: 0 <= i < j < |events| && IssuedAt(events, i, h) ==> !IssuedAt(events, j, h)
  }

  /** A record comes from where it was issued, with the expiry it got there. */
  ghost predicate ComesFrom(events: seq<Event>, k: nat, hash: string, r: Reset)
    requires k <= |events|
  {
    exists a :: 0 <= a < k && IssuedAt(events, a, hash) && r.expires == events[a].now + events[a].ttl
                 && r.account == events[a].id
  }

  ghost predicate AllIssued(events: seq<Event>, k: nat, resets: map<string, Reset>)
    requires k <= |events|
  {
    forall h :: h in resets ==> ComesFrom(events, k, h, resets[h])
  }

  /** Nothing but a mark of use is new. */
  ghost predicate Narrower(next: map<string, Reset>, resets: map<string, Reset>) {
    forall h :: h in next ==>
                  && h in resets
                  && next[h].expires == resets[h].expires && next[h].account == resets[h].account
  }

  lemma ResetsNarrow(base: string, s: State, e: Event, s': State)
    requires Next(base, s, e, s') && !e.IssueReset?
    ensures Narrower(s'.resets, if Stops(e) then s.disk.resets else s.resets)
    ensures Narrower(s'.disk.resets, if e.ResetPassword? then s.resets else s.disk.resets)
  {
    if e.ResetPassword? {
      ResetNarrows(s, e.hash, e.now);
    } else if Stops(e) {
      StopNarrows(base, s, e, s');
    } else {
      assert s'.resets == s.resets && s'.disk.resets == s.disk.resets;
    }
  }

  lemma ResetNarrows(s: State, hash: string, now: int)
    ensures var s' := PasswordReset(s, hash, now); Narrower(s'.resets, s.resets) && Narrower(s'.disk.resets, s.resets)
  {
  }

  lemma StopNarrows(base: string, s: State, e: Event, s': State)
    requires Next(base, s, e, s') && Stops(e)
    ensures Narrower(s'.resets, s.disk.resets) && s'.disk.resets == s.disk.resets
  {
  }

  lemma StillIssued(events: seq<Event>, k: nat, resets: map<string, Reset>, next: map<string, Reset>)
    requires k < |events| && AllIssued(events, k, resets)
    requires Narrower(next, resets)
    ensures AllIssued(events, k + 1, next)
  {
  }

  lemma IssuedNow(events: seq<Event>, k: nat, s: State, s': State)
    requires k < |events| && AllIssued(events, k, s.resets) && events[k].IssueReset?
    requires var e := events[k]; s' == ResetIssued(s, e.id, e.hash, e.ttl, e.now)
    ensures AllIssued(events, k + 1, s'.resets) && AllIssued(events, k + 1, s'.disk.resets)
  {
  }

  lemma {:induction false} ResetsComeFrom(base: string, events: seq<Event>, states: seq<State>, k: nat)
    requires IsRun(base, events, states) && k <= |events|
    ensures AllIssued(events, k, states[k].resets) && AllIssued(events, k, states[k].disk.resets)
  {
    if k > 0 {
      ResetsComeFrom(base, events, states, k - 1);
      assert Next(base, states[k - 1], events[k - 1], states[k]);
      if events[k - 1].IssueReset? {
        IssuedNow(events, k - 1, states[k - 1], states[k]);
      } else {
        var s, e := states[k - 1], events[k - 1];
        ResetsNarrow(base, s, e, states[k]);
        StillIssued(events, k - 1, if Stops(e) then s.disk.resets else s.resets, states[k].resets);
        StillIssued(events, k - 1, if e.ResetPassword? then s.resets else s.disk.resets, states[k].disk.resets);
      }
    }
  }

  lemma {:induction false} SpentFrom(base: string, events: seq<Event>, states: seq<State>, i: nat, k: nat, hash: string)
    requires IsRun(base, events, states) && NeverAgain(events) && i < k <= |events|
             && ConsumedAt(events, states, i, hash)
    requires events[i].ResetPassword?
    ensures Spent(states[k], hash)
  {
    if k == i + 1 {
      assert Next(base, states[i], events[i], states[k]);
      ConsumingSpends(states[i], hash, events[i].now);
    } else {
      SpentFrom(base, events, states, i, k - 1, hash);
      ResetsComeFrom(base, events, states, i);
      assert ComesFrom(events, i, hash, states[i].resets[hash]);
      var a :| 0 <= a < i && IssuedAt(events, a, hash);
      assert !IssuedAt(events, k - 1, hash);
      StaysSpent(base, states[k - 1], events[k - 1], states[k], hash);
    }
  }

  /** A reset token sets a password at most once, and only before its expiry; it can do so again only when
      the service was stopped between the two writes of the time before. */
  lemma ResetsWorkOnce(base: string, events: seq<Event>, states: seq<State>, i: nat, k: nat, hash: string)
    requires IsRun(base, events, states) && NeverAgain(events) && i < |events| && k < |events|
    requires ConsumedAt(events, states, i, hash) && ConsumedAt(events, states, k, hash)
    ensures i < k ==> StoppedShort(events[i], hash)
    ensures exists a :: 0 <= a < i && IssuedAt(events, a, hash) && events[i].now < events[a].now + events[a].ttl
  {
    if i < k && events[i].ResetPassword? {
      SpentFrom(base, events, states, i, k, hash);
    }
    ResetsComeFrom(base, events, states, i);
    assert ComesFrom(events, i, hash, states[i].resets[hash]);
    var a :| 0 <= a < i && IssuedAt(events, a, hash) && states[i].resets[hash].expires == events[a].now + events[a].ttl;
  }

  // ----- Resets that a stop brings back -----

  /** When an event reads the clock, or a service that is started over does. */
  function Clock(e: Event): Option<int> {
    match e
    case IssueReset(_, _, _, now) => Some(now)
    case ResetPassword(_, now) => Some(now)
    case Restart(now) => Some(now)
    case StopInReset(_, _, _, _, again) => Some(again)
    case StopInChange(_, _, _, again) => Some(again)
    case _ => None
  }

  /** Until some time, what is remembered of a reset is on disk as well. */
  ghost predicate Kept(s: State, time: int) {
    forall h :: h in s.resets && time < s.resets[h].expires ==> h in s.disk.resets && s.disk.resets[h] == s.resets[h]
  }

  lemma StepKeeps(base: string, s: State, e: Event, s': State, time: int, later: int)
    requires Next(base, s, e, s') && Kept(s, time) && time <= later
    requires Clock(e).Some? ==> Clock(e).value <= later
    ensures Kept(s', later)
  {
  }

  /** The clock has not read more than `time` so far. */
  ghost predicate ReadBy(events: seq<Event>, k: nat, time: int)
    requires k <= |events|
  {
    forall j :: 0 <= j < k && Clock(events[j]).Some? ==> Clock(events[j]).value <= time
  }

  lemma {:induction false} ResetsAreKept(base: string, events: seq<Event>, states: seq<State>, k: nat, time: int)
    requires IsRun(base, events, states) && k <= |events| && ReadBy(events, k, time)
    ensures Kept(states[k], time)
  {
    if k > 0 {
      ResetsAreKept(base, events, states, k - 1, time);
      StepKeeps(base, states[k - 1], events[k - 1], states[k], time, time);
    }
  }

  lemma LeftByKeepsResets(s: State, id: string, written: Written)
    requires id in s.members
    ensures var disk := LeftBy(s, id, written);
            disk.resets == s.disk.resets && (written.Accounts? ==> disk.members.Keys == s.members.Keys)
  {
  }

  /** After such a stop, the token works again exactly until its expiry, if the service is started over by then. */
  lemma WorksAgain(base: string, events: seq<Event>, states: seq<State>, i: nat, hash: string, later: int)
    requires IsRun(base, events, states) && i < |events| && ConsumedAt(events, states, i, hash)
    requires StoppedShort(events[i], hash)
    requires ReadBy(events, i, events[i].now)
    ensures var expires := states[i].resets[hash].expires;
            Consumable(states[i + 1], hash, later) <==> events[i].again < expires && later < expires
  {
    var e := events[i];
    assert Next(base, states[i], e, states[i + 1]);
    NamesAreDrawn(base, events, states, i, hash);
    ResetsAreKept(base, events, states, i, e.now);
    BroughtBack(base, states[i], e, states[i + 1], hash, later);
  }

  /** Every reset has a name. */
  lemma NamesAreDrawn(base: string, events: seq<Event>, states: seq<State>, k: nat, hash: string)
    requires IsRun(base, events, states) && k <= |events| && hash in states[k].resets
    ensures hash != ""
  {
    ResetsComeFrom(base, events, states, k);
    assert ComesFrom(events, k, hash, states[k].resets[hash]);
    var a :| 0 <= a < k && IssuedAt(events, a, hash);
    assert Next(base, states[a], events[a], states[a + 1]);
  }

  lemma BroughtBack(base: string, s: State, e: Event, s': State, hash: string, later: int)
    requires StoppedShort(e, hash) && Next(base, s, e, s') && hash != "" && Kept(s, e.now)
    ensures Consumable(s', hash, later) <==> e.again < s.resets[hash].expires && later < s.resets[hash].expires
  {
    LeftByKeepsResets(Consumed(s, hash), s.resets[hash].account, e.written);
  }
}
