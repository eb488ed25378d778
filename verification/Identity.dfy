/** What the identity service remembers about sign-in: token generations, sessions, Spark grants and
    password resets, in memory and in its files. Times are in seconds. */
module Identity {
  import opened Text
  import opened Accounts

  // ----- Tokens -----

  /** The claims of a signed token; `jti` is empty in all but Spark tokens. */
  datatype Token = Token(webID: string, version: nat, jti: string, issued: int, expires: int)

  datatype Parsed = Accepted(webID: string, jti: string) | Invalid | Revoked

  function VersionOf(versions: map<string, nat>, webID: string): nat {
    if webID != "" && webID in versions then versions[webID] else 0
  }

  function Forward(versions: map<string, nat>, webID: string, v: int): map<string, nat> {
    if webID == "" || v <= VersionOf(versions, webID) then versions else versions[webID := v]
  }

  function ParsedToken(versions: map<string, nat>, revoked: set<string>, t: Token, now: int): Parsed {
    if now >= t.expires then Invalid
    else if t.jti != "" && t.jti in revoked then Revoked
    else if t.version != VersionOf(versions, t.webID) then Revoked
    else Accepted(t.webID, t.jti)
  }

  const HOUR := 3600

  class TokenService {
    var versions: map<string, nat>
    var revoked: set<string>

    constructor ()
      ensures versions == map[] && revoked == {}
    {
      versions, revoked := map[], {};
    }

    function TokenVersion(webID: string): nat
      reads this
    {
      VersionOf(versions, webID)
    }

    method Issue(webID: string, ttl: int, now: int) returns (t: Token)
      ensures t == Token(webID, VersionOf(versions, webID), "", now, now + if ttl == 0 then HOUR else ttl)
    {
      var life := ttl;
      if life == 0 {
        life := HOUR;
      }
      t := Token(webID, TokenVersion(webID), "", now, now + life);
    }

    /** `sparkTTL` is the configured life time, `jti` a random name. */
    method IssueSpark(webID: string, ttl: int, sparkTTL: int, now: int, jti: string) returns (t: Token)
      ensures t == Token(webID, VersionOf(versions, webID), jti, now, now + if ttl <= 0 then sparkTTL else ttl)
    {
      var life := ttl;
      if life <= 0 {
        life := sparkTTL;
      }
      t := Token(webID, TokenVersion(webID), jti, now, now + life);
    }

    method RevokeJTI(jti: string)
      modifies this`revoked
      ensures revoked == if jti == "" then old(revoked) else old(revoked) + {jti}
    {
      if jti == "" {
        return;
      }
      revoked := revoked + {jti};
    }

    method SetTokenVersion(webID: string, v: int)
      modifies this`versions
      ensures versions == Forward(old(versions), webID, v)
    {
      if webID == "" || v <= 0 {
        return;
      }
      var cur := if webID in versions then versions[webID] else 0;
      if v > cur {
        versions := versions[webID := v];
      }
    }

    method Parse(t: Token, now: int) returns (p: Parsed)
      ensures p == ParsedToken(versions, revoked, t, now)
    {
      if now >= t.expires {
        return Invalid;
      }
      if t.jti != "" && t.jti in revoked {
        return Revoked;
      }
      if t.version != TokenVersion(t.webID) {
        return Revoked;
      }
      return Accepted(t.webID, t.jti);
    }
  }

  // ----- The state of the service -----

  datatype Member = Member(handle: string, webID: string, version: nat)

  datatype Grant = Grant(webID: string, issued: int, expires: int, revoked: bool)

  datatype Reset = Reset(account: string, expires: int, used: bool)

  datatype Disk = Disk(members: map<string, Member>, grants: map<string, Grant>, resets: map<string, Reset>)

  datatype State = State(versions: map<string, nat>, revoked: set<string>, members: map<string, Member>,
                         sessions: map<string, string>, grants: map<string, Grant>, resets: map<string, Reset>,
                         disk: Disk)

  /** The live grants of an agent, or the one of them with this name. */
  function Hit(grants: map<string, Grant>, webID: string, jti: string): set<string> {
    set j | j in grants && grants[j].webID == webID && !grants[j].revoked && (jti == "" || j == jti)
  }

  function RevokeAll(grants: map<string, Grant>, hit: set<string>): map<string, Grant> {
    map j | j in grants :: if j in hit then grants[j].(revoked := true) else grants[j]
  }

  /** invalidateAuthLocked */
  function Invalidated(s: State, id: string): State
    requires id in s.members
  {
    var m := s.members[id];
    var hit := Hit(s.grants, m.webID, "");
    var grants := RevokeAll(s.grants, hit);
    s.(versions := Forward(s.versions, m.webID, m.version + 1),
       members := s.members[id := m.(version := m.version + 1)],
       sessions := map k | k in s.sessions && s.sessions[k] != id :: s.sessions[k],
       grants := grants, revoked := s.revoked + (hit - {""}),
       disk := if hit == {} then s.disk else s.disk.(grants := grants))
  }

  function Saved(s: State): State { s.(disk := s.disk.(members := s.members)) }

  /** Resets that are still good for something. */
  function Fresh(resets: map<string, Reset>, now: int): map<string, Reset> {
    map h | h in resets && now < resets[h].expires :: resets[h]
  }

  function ResetsSaved(s: State, now: int): State { s.(disk := s.disk.(resets := Fresh(s.resets, now))) }

  /** issueResetLocked: `hash` is that of a new random token. */
  function ResetIssued(s: State, id: string, hash: string, ttl: int, now: int): State {
    var others := map h | h in s.resets && !(s.resets[h].account == id && !s.resets[h].used) :: s.resets[h];
    ResetsSaved(s.(resets := others[hash := Reset(id, now + ttl, false)]), now)
  }

  /** consumeResetLocked gives back an account. */
  predicate Consumable(s: State, hash: string, now: int) {
    && hash in s.resets && !s.resets[hash].used && now < s.resets[hash].expires
    && s.resets[hash].account in s.members
  }

  function Consumed(s: State, hash: string): State
    requires hash in s.resets
  {
    s.(resets := s.resets[hash := s.resets[hash].(used := true)])
  }

  /** resetPassword, from the lock on. */
  function PasswordReset(s: State, hash: string, now: int): State {
    if Consumable(s, hash, now) then
      ResetsSaved(Saved(Invalidated(Consumed(s, hash), s.resets[hash].account)), now)
    else ResetsSaved(s, now)
  }

  /** Register, up to the point where the pod is provisioned; the account is only saved after that. */
  function MemberAdded(s: State, id: string, m: Member): State { s.(members := s.members[id := m]) }

  /** handleSparkTokenMint records the grant after the token was issued. */
  function GrantRecorded(s: State, t: Token, now: int): State {
    var grants := s.grants[t.jti := Grant(t.webID, now, t.expires, false)];
    s.(grants := grants, disk := s.disk.(grants := grants))
  }

  /** handleSparkTokenRevoke */
  function GrantsRevoked(s: State, webID: string, jti: string): State {
    var hit := Hit(s.grants, webID, jti);
    var grants := RevokeAll(s.grants, hit);
    s.(grants := grants, revoked := s.revoked + (hit - {""}), disk := s.disk.(grants := grants))
  }

  function RevokedNames(grants: map<string, Grant>): set<string> { (set j | j in grants && grants[j].revoked) - {""} }

  /** The highest version of an agent's accounts. */
  ghost predicate IsHighest(members: map<string, Member>, webID: string, v: nat) {
    && (forall i :: i in members && members[i].webID == webID != "" ==> members[i].version <= v)
    && (v > 0 ==> exists i :: i in members && members[i].webID == webID != "" && members[i].version == v)
  }

  /** What a new service reads from the files. */
  ghost predicate Restarted(disk: Disk, now: int, s: State) {
    && s == State(s.versions, RevokedNames(disk.grants), disk.members, map[], disk.grants,
                  Fresh(disk.resets, now) - {""}, disk)
    && forall w :: IsHighest(disk.members, w, VersionOf(s.versions, w))
  }

  // ----- The service -----

  class Service {
    const tokens: TokenService
    var members: map<string, Member>
    var sessions: map<string, string>
    var grants: map<string, Grant>
    var resets: map<string, Reset>
    var disk: Disk

    function Snapshot(): State
      reads this, tokens
    {
      State(tokens.versions, tokens.revoked, members, sessions, grants, resets, disk)
    }

    /** A service over the files of an earlier one. */
    constructor (disk: Disk, now: int)
      ensures fresh(tokens)
      ensures Restarted(disk, now, Snapshot())
    {
      tokens := new TokenService();
      members, sessions, grants, resets := map[], map[], map[], map[];
      this.disk := disk;
      new;
      LoadMembers();
      LoadGrants();
      LoadResets(now);
    }

    method LoadMembers()
      requires members == map[] && tokens.versions == map[]
      modifies this`members, tokens`versions
      ensures members == disk.members
      ensures forall w :: IsHighest(disk.members, w, VersionOf(tokens.versions, w))
    {
      var ids := disk.members.Keys;
      while ids != {}
        invariant ids <= disk.members.Keys
        invariant members == disk.members - ids
        invariant forall w :: IsHighest(members, w, VersionOf(tokens.versions, w))
        decreases ids
      {
        var i :| i in ids;
        var m := disk.members[i];
        HighestGrows(members, tokens.versions, i, m);
        members := members[i := m];
        if m.version > 0 {
          tokens.SetTokenVersion(m.webID, m.version);
        }
        ids := ids - {i};
      }
    }

    method LoadGrants()
      requires grants == map[] && tokens.revoked == {}
      modifies this`grants, tokens`revoked
      ensures grants == disk.grants && tokens.revoked == RevokedNames(disk.grants)
    {
      var names := disk.grants.Keys;
      while names != {}
        invariant names <= disk.grants.Keys
        invariant grants == disk.grants - names
        invariant tokens.revoked == RevokedNames(grants)
        decreases names
      {
        var j :| j in names;
        grants := grants[j := disk.grants[j]];
        if disk.grants[j].revoked {
          tokens.RevokeJTI(j);
        }
        names := names - {j};
      }
    }

    method LoadResets(now: int)
      requires resets == map[]
      modifies this`resets
      ensures resets == Fresh(disk.resets, now) - {""}
    {
      var hashes := disk.resets.Keys;
      while hashes != {}
        invariant hashes <= disk.resets.Keys
        invariant resets == Fresh(disk.resets - hashes, now) - {""}
        decreases hashes
      {
        var h :| h in hashes;
        var r := disk.resets[h];
        if h == "" || now >= r.expires {
          assert Fresh(disk.resets - (hashes - {h}), now) - {""} == Fresh(disk.resets - hashes, now) - {""};
          hashes := hashes - {h};
          continue;
        }
        resets := resets[h := r];
        hashes := hashes - {h};
      }
    }

    method Save()
      modifies this`disk
      ensures Snapshot() == Saved(old(Snapshot()))
    {
      disk := disk.(members := members);
    }

    method SaveGrants()
      modifies this`disk
      ensures disk == old(disk).(grants := grants)
    {
      disk := disk.(grants := grants);
    }

    method SaveResets(now: int)
      modifies this`disk
      ensures Snapshot() == ResetsSaved(old(Snapshot()), now)
    {
      var file: map<string, Reset> := map[];
      var hashes := resets.Keys;
      while hashes != {}
        invariant hashes <= resets.Keys
        invariant file == Fresh(resets - hashes, now)
        decreases hashes
      {
        var h :| h in hashes;
        if now >= resets[h].expires {
          assert Fresh(resets - (hashes - {h}), now) == Fresh(resets - hashes, now);
          hashes := hashes - {h};
          continue;
        }
        file := file[h := resets[h]];
        hashes := hashes - {h};
      }
      disk := disk.(resets := file);
    }

    /** The loop over the grants, in a password change and in a revocation. */
    method RevokeGrants(webID: string, jti: string) returns (any: bool)
      modifies this`grants, tokens`revoked
      ensures var hit := Hit(old(grants), webID, jti);
              && grants == RevokeAll(old(grants), hit)
              && tokens.revoked == old(tokens.revoked) + (hit - {""})
              && (any <==> hit != {})
    {
      any := false;
      ghost var hit := Hit(grants, webID, jti);
      var names := grants.Keys;
      while names != {}
        invariant names <= old(grants.Keys)
        invariant grants == RevokeAll(old(grants), hit - names)
        invariant tokens.revoked == old(tokens.revoked) + (hit - names - {""})
        invariant any <==> hit - names != {}
        decreases names
      {
        var j :| j in names;
        var g := grants[j];
        assert g == old(grants[j]);
        names := names - {j};
        if g.webID != webID || g.revoked || (jti != "" && j != jti) {
          assert hit - names == hit - (names + {j});
          continue;
        }
        assert hit - names == hit - (names + {j}) + {j};
        grants := grants[j := g.(revoked := true)];
        tokens.RevokeJTI(j);
        any := true;
      }
      assert hit - names == hit;
    }

    method DropSessions(id: string)
      modifies this`sessions
      ensures sessions == map k | k in old(sessions) && old(sessions)[k] != id :: old(sessions)[k]
    {
      var cookies := sessions.Keys;
      while cookies != {}
        invariant cookies <= old(sessions.Keys)
        invariant sessions == map k | k in old(sessions) && (k in cookies || old(sessions)[k] != id) :: old(sessions)[k]
        decreases cookies
      {
        var k :| k in cookies;
        if sessions[k] == id {
          sessions := sessions - {k};
        }
        cookies := cookies - {k};
      }
    }

    method InvalidateAuth(id: string)
      requires id in members
      modifies this, tokens
      ensures Snapshot() == Invalidated(old(Snapshot()), id)
    {
      var m := members[id];
      m := m.(version := m.version + 1);
      members := members[id := m];
      tokens.SetTokenVersion(m.webID, m.version);
      DropSessions(id);
      var any := RevokeGrants(m.webID, "");
      if any {
        SaveGrants();
      }
    }

    /** The locked part of a profile update that sets a new password. */
    method ChangePassword(id: string)
      requires id in members
      modifies this, tokens
      ensures Snapshot() == Saved(Invalidated(old(Snapshot()), id))
    {
      InvalidateAuth(id);
      Save();
    }

    method DropUnused(id: string)
      modifies this`resets
      ensures resets == map h | h in old(resets) && !(old(resets)[h].account == id && !old(resets)[h].used)
                              :: old(resets)[h]
    {
      var hashes := resets.Keys;
      while hashes != {}
        invariant hashes <= old(resets.Keys)
        invariant resets == map h | h in old(resets) &&
                                  (h in hashes || !(old(resets)[h].account == id && !old(resets)[h].used))
                              :: old(resets)[h]
        decreases hashes
      {
        var h :| h in hashes;
        if resets[h].account == id && !resets[h].used {
          resets := resets - {h};
        }
        hashes := hashes - {h};
      }
    }

    method IssueReset(id: string, hash: string, ttl: int, now: int)
      modifies this
      ensures Snapshot() == ResetIssued(old(Snapshot()), id, hash, ttl, now)
    {
      DropUnused(id);
      resets := resets[hash := Reset(id, now + ttl, false)];
      SaveResets(now);
    }

    method ConsumeReset(hash: string, now: int) returns (id: Option<string>)
      modifies this`resets
      ensures id.Some? <==> Consumable(old(Snapshot()), hash, now)
      ensures id.Some? ==> id.value == old(resets)[hash].account && Snapshot() == Consumed(old(Snapshot()), hash)
      ensures id.None? ==> resets == old(resets)
    {
      if hash !in resets || resets[hash].used || now >= resets[hash].expires {
        return None;
      }
      var account := resets[hash].account;
      if account !in members {
        return None;
      }
      resets := resets[hash := resets[hash].(used := true)];
      return Some(account);
    }

    method ResetPassword(hash: string, now: int) returns (ok: bool)
      modifies this, tokens
      ensures ok <==> Consumable(old(Snapshot()), hash, now)
      ensures Snapshot() == PasswordReset(old(Snapshot()), hash, now)
    {
      var id := ConsumeReset(hash, now);
      if id.None? {
        SaveResets(now);
        return false;
      }
      InvalidateAuth(id.value);
      Save();
      SaveResets(now);
      return true;
    }

    method AddMember(id: string, m: Member)
      modifies this`members
      ensures Snapshot() == MemberAdded(old(Snapshot()), id, m)
    {
      members := members[id := m];
    }

    /** The end of handleSparkTokenMint. */
    method RecordGrant(t: Token, now: int)
      modifies this`grants, this`disk
      ensures Snapshot() == GrantRecorded(old(Snapshot()), t, now)
    {
      grants := grants[t.jti := Grant(t.webID, now, t.expires, false)];
      SaveGrants();
    }

    method RevokeSpark(webID: string, jti: string)
      modifies this, tokens
      ensures Snapshot() == GrantsRevoked(old(Snapshot()), webID, jti)
    {
      var any := RevokeGrants(webID, jti);
      SaveGrants();
    }
  }

  lemma HighestGrows(members: map<string, Member>, versions: map<string, nat>, i: string, m: Member)
    requires i !in members && forall w :: IsHighest(members, w, VersionOf(versions, w))
    ensures forall w :: IsHighest(members[i := m], w, VersionOf(Forward(versions, m.webID, m.version), w))
    ensures m.version == 0 ==> forall w :: IsHighest(members[i := m], w, VersionOf(versions, w))
  {
    forall w
      ensures IsHighest(members[i := m], w, VersionOf(Forward(versions, m.webID, m.version), w))
      ensures m.version == 0 ==> IsHighest(members[i := m], w, VersionOf(versions, w))
    {
      var next := members[i := m];
      assert IsHighest(members, w, VersionOf(versions, w));
      if VersionOf(versions, w) > 0 {
        var k :| k in members && members[k].webID == w != "" && members[k].version == VersionOf(versions, w);
        assert next[k] == members[k];
      }
      assert next[i] == m;
    }
  }
}
