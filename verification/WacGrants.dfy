/** Who may do what under the generated ACL documents. */
module WacGrants {
  import opened Text
  import opened Turtle
  import opened TurtleRoundTrip
  import opened TurtleLiterals
  import opened Wac
  import opened WacProofs

  // ----- Documents whose authorizations all have a default -----

  ghost predicate Says(g: seq<Triple>, s: string, p: string, o: string) {
    exists i :: 0 <= i < |g| && g[i].subject == s && g[i].predicate_ == p && g[i].obj == o
  }

  lemma {:induction false} ObjectsAreSaid(g: seq<Triple>, s: string, p: string, o: string)
    requires s != "" && p != ""
    ensures o in ObjectsOf(g, s, p) <==> Says(g, s, p, o)
  {
    if g != [] {
      var init := g[..|g| - 1];
      ObjectsAreSaid(init, s, p, o);
      if Says(g, s, p, o) {
        var i :| 0 <= i < |g| && g[i].subject == s && g[i].predicate_ == p && g[i].obj == o;
        assert i < |init| ==> init[i] == g[i];
      }
      if Says(init, s, p, o) {
        var i :| 0 <= i < |init| && init[i].subject == s && init[i].predicate_ == p && init[i].obj == o;
        assert g[i] == init[i];
      }
    }
  }

  function Subjects(g: seq<Triple>): set<string> { set i | 0 <= i < |g| :: g[i].subject }

  ghost predicate HasDefault(g: seq<Triple>, s: string) {
    exists i :: 0 <= i < |g| && g[i].subject == s && g[i].predicate_ == DEFAULT
  }

  /** Every authorization has a default, so that all of them apply to every path. */
  ghost predicate Defaulted(g: seq<Triple>) { forall s :: s in Subjects(g) ==> s != "" && HasDefault(g, s) }

  lemma AllAuthorizationsApply(g: seq<Triple>, path: string)
    requires Defaulted(g)
    ensures Authorizations(g, path) == Subjects(g)
  {
    var resource := TrimPrefix(path, "/");
    var found := set i | 0 <= i < |g| && Concerns(g[i], resource) :: g[i].subject;
    forall s | s in Subjects(g) ensures s in found {
      assert HasDefault(g, s);
      var k :| 0 <= k < |g| && g[k].subject == s && g[k].predicate_ == DEFAULT;
      assert Concerns(g[k], resource);
    }
    assert found == Subjects(g);
    assert g != [] ==> g[0].subject in Subjects(g);
  }

  // ----- Authorizations add up -----

  function Either(a: Mode, b: Mode): Mode {
    Mode(a.read || b.read, a.write || b.write, a.append || b.append, a.control || b.control)
  }

  lemma SaidTogether(a: seq<Triple>, b: seq<Triple>, s: string, p: string, o: string)
    ensures Says(a + b, s, p, o) <==> Says(a, s, p, o) || Says(b, s, p, o)
  {
    var g := a + b;
    if Says(a, s, p, o) {
      var i :| 0 <= i < |a| && a[i].subject == s && a[i].predicate_ == p && a[i].obj == o;
      assert g[i] == a[i];
    }
    if Says(b, s, p, o) {
      var i :| 0 <= i < |b| && b[i].subject == s && b[i].predicate_ == p && b[i].obj == o;
      assert g[|a| + i] == b[i];
    }
    if Says(g, s, p, o) {
      var i :| 0 <= i < |g| && g[i].subject == s && g[i].predicate_ == p && g[i].obj == o;
      assert if i < |a| then a[i] == g[i] else b[i - |a|] == g[i];
    }
  }

  lemma SubjectsTogether(a: seq<Triple>, b: seq<Triple>)
    ensures Subjects(a + b) == Subjects(a) + Subjects(b)
  {
    var g := a + b;
    forall s ensures s in Subjects(g) <==> s in Subjects(a) + Subjects(b) {
      if i :| 0 <= i < |a| && a[i].subject == s {
        assert g[i] == a[i];
      }
      if i :| 0 <= i < |b| && b[i].subject == s {
        assert g[|a| + i] == b[i];
      }
    }
  }

  lemma DefaultedTogether(a: seq<Triple>, b: seq<Triple>)
    requires Defaulted(a) && Defaulted(b)
    ensures Defaulted(a + b)
  {
    var g := a + b;
    SubjectsTogether(a, b);
    forall s | s in Subjects(g) ensures s != "" && HasDefault(g, s) {
      if s in Subjects(a) {
        assert HasDefault(a, s);
        var k :| 0 <= k < |a| && a[k].subject == s && a[k].predicate_ == DEFAULT;
        assert g[k] == a[k];
      } else {
        assert HasDefault(b, s);
        var k :| 0 <= k < |b| && b[k].subject == s && b[k].predicate_ == DEFAULT;
        assert g[|a| + k] == b[k];
      }
    }
  }

  /** Whether an authorization of the document lets the agent in, and for what. */
  ghost predicate Lets(g: seq<Triple>, auth: string, agent: string, mode: string) {
    && (|| (exists ag :: Says(g, auth, AGENT, ag) && IsAgent(ag, agent))
        || Says(g, auth, AGENT_CLASS, EVERYONE)
        || (agent != "" && Says(g, auth, AGENT_CLASS, AUTHENTICATED)))
    && Says(g, auth, MODE, mode)
  }

  lemma PredicatesAreNotEmpty()
    ensures AGENT != "" && AGENT_CLASS != "" && MODE != ""
  {
    assert |AGENT| > 0 && |AGENT_CLASS| > 0 && |MODE| > 0;
  }

  lemma LetsIsGranting(g: seq<Triple>, auth: string, agent: string, mode: string)
    requires auth != ""
    ensures Lets(g, auth, agent, mode) <==> Applies(g, auth, agent) && mode in ObjectsOf(g, auth, MODE)
  {
    PredicatesAreNotEmpty();
    forall ag ensures ag in ObjectsOf(g, auth, AGENT) <==> Says(g, auth, AGENT, ag) {
      ObjectsAreSaid(g, auth, AGENT, ag);
    }
    ObjectsAreSaid(g, auth, AGENT_CLASS, EVERYONE);
    ObjectsAreSaid(g, auth, AGENT_CLASS, AUTHENTICATED);
    ObjectsAreSaid(g, auth, MODE, mode);
  }

  /** What is said about the subject in one of two documents, when the other has no such subject. */
  lemma LetsTogether(a: seq<Triple>, b: seq<Triple>, auth: string, agent: string, mode: string)
    requires auth !in Subjects(b)
    ensures Lets(a + b, auth, agent, mode) <==> Lets(a, auth, agent, mode)
    ensures Lets(b + a, auth, agent, mode) <==> Lets(a, auth, agent, mode)
  {
    forall p, o
      ensures Says(a + b, auth, p, o) <==> Says(a, auth, p, o)
      ensures Says(b + a, auth, p, o) <==> Says(a, auth, p, o)
    {
      SaidTogether(a, b, auth, p, o);
      SaidTogether(b, a, auth, p, o);
      assert forall i :: 0 <= i < |b| ==> b[i].subject in Subjects(b);
    }
  }

  ghost predicate Allowed(g: seq<Triple>, agent: string, mode: string) {
    exists auth :: auth in Subjects(g) && Lets(g, auth, agent, mode)
  }

  lemma GrantsIsAllowed(g: seq<Triple>, agent: string, mode: string)
    requires "" !in Subjects(g)
    ensures Grants(g, Subjects(g), agent, mode) <==> Allowed(g, agent, mode)
  {
    forall auth | auth in Subjects(g)
      ensures Lets(g, auth, agent, mode) <==> Applies(g, auth, agent) && mode in ObjectsOf(g, auth, MODE)
    {
      LetsIsGranting(g, auth, agent, mode);
    }
  }

  lemma EvaluateIsAllowed(g: seq<Triple>, path: string, agent: string)
    requires Defaulted(g)
    ensures Evaluate(g, path, agent)
         == Mode(Allowed(g, agent, READ), Allowed(g, agent, WRITE),
                 Allowed(g, agent, APPEND), Allowed(g, agent, CONTROL))
  {
    AllAuthorizationsApply(g, path);
    GrantsIsAllowed(g, agent, READ);
    GrantsIsAllowed(g, agent, WRITE);
    GrantsIsAllowed(g, agent, APPEND);
    GrantsIsAllowed(g, agent, CONTROL);
  }

  lemma AllowedTogether(a: seq<Triple>, b: seq<Triple>, agent: string, mode: string)
    requires Subjects(a) !! Subjects(b)
    ensures Allowed(a + b, agent, mode) <==> Allowed(a, agent, mode) || Allowed(b, agent, mode)
  {
    SubjectsTogether(a, b);
    forall auth | auth in Subjects(a)
      ensures Lets(a + b, auth, agent, mode) <==> Lets(a, auth, agent, mode)
    {
      LetsTogether(a, b, auth, agent, mode);
    }
    forall auth | auth in Subjects(b)
      ensures Lets(a + b, auth, agent, mode) <==> Lets(b, auth, agent, mode)
    {
      LetsTogether(b, a, auth, agent, mode);
    }
  }

  /** Documents that share no authorization grant together what they grant apart. */
  lemma AuthorizationsAddUp(a: seq<Triple>, b: seq<Triple>, path: string, agent: string)
    requires Defaulted(a) && Defaulted(b) && Subjects(a) !! Subjects(b)
    ensures Evaluate(a + b, path, agent) == Either(Evaluate(a, path, agent), Evaluate(b, path, agent))
    ensures Defaulted(a + b) && Subjects(a + b) == Subjects(a) + Subjects(b)
  {
    DefaultedTogether(a, b);
    SubjectsTogether(a, b);
    EvaluateIsAllowed(a, path, agent);
    EvaluateIsAllowed(b, path, agent);
    EvaluateIsAllowed(a + b, path, agent);
    AllowedTogether(a, b, agent, READ);
    AllowedTogether(a, b, agent, WRITE);
    AllowedTogether(a, b, agent, APPEND);
    AllowedTogether(a, b, agent, CONTROL);
  }

  // ----- One authorization -----

  /** The triples of one authorization: whom it names, and the modes. */
  ghost predicate Rule(g: seq<Triple>, id: string, who: string, whom: string, modes: seq<string>) {
    && id != "" && Subjects(g) == {id} && Defaulted(g)
    && (who == AGENT || who == AGENT_CLASS)
    && (forall o :: Says(g, id, AGENT, o) <==> who == AGENT && o == whom)
    && (forall o :: Says(g, id, AGENT_CLASS, o) <==> who == AGENT_CLASS && o == whom)
    && (forall o :: Says(g, id, MODE, o) <==> o in modes)
  }

  predicate Named(who: string, whom: string, agent: string) {
    if who == AGENT then IsAgent(whom, agent) else whom == EVERYONE || (whom == AUTHENTICATED && agent != "")
  }

  lemma RuleLets(g: seq<Triple>, id: string, who: string, whom: string, modes: seq<string>, agent: string, mode: string)
    requires Rule(g, id, who, whom, modes)
    ensures Lets(g, id, agent, mode) <==> Named(who, whom, agent) && mode in modes
  {
  }

  lemma RuleGrants(g: seq<Triple>, id: string, who: string, whom: string, modes: seq<string>, path: string,
                   agent: string)
    requires Rule(g, id, who, whom, modes)
    ensures Evaluate(g, path, agent)
         == if Named(who, whom, agent) then Mode(READ in modes, WRITE in modes, APPEND in modes, CONTROL in modes)
            else NOTHING
  {
    EvaluateIsAllowed(g, path, agent);
    forall mode ensures Allowed(g, agent, mode) <==> Named(who, whom, agent) && mode in modes {
      RuleLets(g, id, who, whom, modes, agent, mode);
      assert id in Subjects(g);
    }
  }

  lemma PredicatesDiffer()
    ensures AGENT != AGENT_CLASS && MODE != AGENT && MODE != AGENT_CLASS
    ensures TYPE !in {AGENT, AGENT_CLASS, MODE} && ACCESS_TO !in {AGENT, AGENT_CLASS, MODE}
    ensures DEFAULT !in {AGENT, AGENT_CLASS, MODE}
  {
    assert |TYPE| == 47 && |ACCESS_TO| == 38 && |DEFAULT| == 37 && |AGENT| == 35 && |AGENT_CLASS| == 40 && |MODE| == 34;
  }

  /** The order in which the generators list the triples of an authorization. */
  ghost predicate Listed(g: seq<Triple>, id: string, who: string, whom: string, url: string, modes: seq<string>) {
    && |g| == 4 + |modes|
    && g[0] == IriTriple(id, TYPE, AUTHORIZATION) && g[1] == IriTriple(id, who, whom)
    && g[2] == IriTriple(id, ACCESS_TO, url) && g[3] == IriTriple(id, DEFAULT, url)
    && forall i :: 4 <= i < |g| ==> g[i] == IriTriple(id, MODE, modes[i - 4])
  }

  lemma ListedSays(g: seq<Triple>, id: string, who: string, whom: string, url: string, modes: seq<string>, p: string,
                   o: string)
    requires Listed(g, id, who, whom, url, modes)
    requires who == AGENT || who == AGENT_CLASS
    requires p == AGENT || p == AGENT_CLASS || p == MODE
    ensures Says(g, id, p, o) <==> if p == MODE then o in modes else p == who && o == whom
  {
    PredicatesDiffer();
    if p == who && o == whom {
      assert g[1].predicate_ == p;
    }
    if p == MODE && o in modes {
      var i :| 0 <= i < |modes| && modes[i] == o;
      assert g[4 + i].obj == o;
    }
  }

  lemma ListedIsRule(g: seq<Triple>, id: string, who: string, whom: string, url: string, modes: seq<string>)
    requires Listed(g, id, who, whom, url, modes) && id != ""
    requires who == AGENT || who == AGENT_CLASS
    ensures Rule(g, id, who, whom, modes)
  {
    forall o
      ensures Says(g, id, AGENT, o) <==> who == AGENT && o == whom
      ensures Says(g, id, AGENT_CLASS, o) <==> who == AGENT_CLASS && o == whom
      ensures Says(g, id, MODE, o) <==> o in modes
    {
      PredicatesDiffer();
      ListedSays(g, id, who, whom, url, modes, AGENT, o);
      ListedSays(g, id, who, whom, url, modes, AGENT_CLASS, o);
      ListedSays(g, id, who, whom, url, modes, MODE, o);
    }
    assert g[3].predicate_ == DEFAULT;
    assert HasDefault(g, id);
    assert g[0].subject in Subjects(g);
    assert Subjects(g) == {id};
  }

  lemma OwnerGrants(url: string, owner: string, path: string, agent: string)
    ensures Evaluate(OwnerGraph(url, owner), path, agent) == if IsAgent(owner, agent) then EVERYTHING else NOTHING
    ensures Defaulted(OwnerGraph(url, owner)) && Subjects(OwnerGraph(url, owner)) == {"#owner"}
  {
    var g := OwnerGraph(url, owner);
    var modes := [READ, WRITE, APPEND, CONTROL];
    assert Listed(g, "#owner", AGENT, owner, url, modes);
    ListedIsRule(g, "#owner", AGENT, owner, url, modes);
    RuleGrants(g, "#owner", AGENT, owner, modes, path, agent);
    assert READ in modes && WRITE in modes && APPEND in modes && CONTROL in modes;
  }

  lemma PublicGrants(url: string, path: string, agent: string)
    ensures Evaluate(PublicGraph(url), path, agent) == Mode(true, false, false, false)
    ensures Defaulted(PublicGraph(url)) && Subjects(PublicGraph(url)) == {"#public"}
  {
    var g := PublicGraph(url);
    var modes := [READ];
    assert Listed(g, "#public", AGENT_CLASS, EVERYONE, url, modes);
    ListedIsRule(g, "#public", AGENT_CLASS, EVERYONE, url, modes);
    RuleGrants(g, "#public", AGENT_CLASS, EVERYONE, modes, path, agent);
    ModesDiffer();
    PredicatesDiffer();
  }

  lemma AuthenticatedGrants(url: string, path: string, agent: string)
    ensures Evaluate(AuthenticatedGraph(url), path, agent) ==
            if agent != "" then Mode(true, true, true, false) else NOTHING
    ensures Defaulted(AuthenticatedGraph(url)) && Subjects(AuthenticatedGraph(url)) == {"#authenticated"}
  {
    var g := AuthenticatedGraph(url);
    var modes := [READ, WRITE, APPEND];
    assert Listed(g, "#authenticated", AGENT_CLASS, AUTHENTICATED, url, modes);
    ListedIsRule(g, "#authenticated", AGENT_CLASS, AUTHENTICATED, url, modes);
    RuleGrants(g, "#authenticated", AGENT_CLASS, AUTHENTICATED, modes, path, agent);
    ModesDiffer();
    PredicatesDiffer();
    assert |AUTHENTICATED| != |EVERYONE|;
    assert READ in modes && WRITE in modes && APPEND in modes && CONTROL !in modes;
  }

  // ----- The three documents, printed and parsed -----

  lemma SubjectsDiffer()
    ensures {"#owner"} !! {"#public"} && {"#owner"} !! {"#authenticated"} && {"#public"} !! {"#authenticated"}
  {
    assert |"#owner"| == 6 && |"#public"| == 7 && |"#authenticated"| == 14;
  }

  lemma PublicReadGrants(url: string, owner: string, path: string, agent: string)
    ensures Evaluate(PublicReadGraph(url, owner), path, agent)
         == if owner != "" && IsAgent(owner, agent) then EVERYTHING else Mode(true, false, false, false)
  {
    PublicGrants(url, path, agent);
    if owner != "" {
      OwnerGrants(url, owner, path, agent);
      SubjectsDiffer();
      AuthorizationsAddUp(PublicGraph(url), OwnerGraph(url, owner), path, agent);
    }
  }

  lemma DefaultPublicGrants(url: string, owner: string, path: string, agent: string)
    ensures Evaluate(DefaultPublicGraph(url, owner), path, agent)
         == if owner != "" && IsAgent(owner, agent) then EVERYTHING
            else if agent != "" then Mode(true, true, true, false)
            else Mode(true, false, false, false)
  {
    PublicGrants(url, path, agent);
    AuthenticatedGrants(url, path, agent);
    SubjectsDiffer();
    AuthorizationsAddUp(PublicGraph(url), AuthenticatedGraph(url), path, agent);
    if owner != "" {
      OwnerGrants(url, owner, path, agent);
      AuthorizationsAddUp(PublicGraph(url) + AuthenticatedGraph(url), OwnerGraph(url, owner), path, agent);
    }
  }

  lemma OwnerTriples(url: string, owner: string, ps: seq<(string, string)>)
    requires IriOk(url, ps) && IriOk(owner, ps)
    ensures forall i :: 0 <= i < |OwnerGraph(url, owner)| ==> AclTriple(OwnerGraph(url, owner)[i], ps)
  {
    TypeIsSimple();
    FragmentsAreSimple();
    PredicatesAreSimple();
    ObjectsAreSimple();
  }

  lemma PublicTriples(url: string, ps: seq<(string, string)>)
    requires IriOk(url, ps)
    ensures forall i :: 0 <= i < |PublicGraph(url)| ==> AclTriple(PublicGraph(url)[i], ps)
  {
    TypeIsSimple();
    FragmentsAreSimple();
    PredicatesAreSimple();
    ObjectsAreSimple();
  }

  lemma AuthenticatedTriples(url: string, ps: seq<(string, string)>)
    requires IriOk(url, ps)
    ensures forall i :: 0 <= i < |AuthenticatedGraph(url)| ==> AclTriple(AuthenticatedGraph(url)[i], ps)
  {
    TypeIsSimple();
    FragmentsAreSimple();
    PredicatesAreSimple();
    ObjectsAreSimple();
  }

  /** The generated document, printed, parsed and evaluated, in each of the three forms. */
  lemma OwnerOnlyDocument(isPrint: char -> bool, ps: seq<(string, string)>, url: string, owner: string, path: string,
                          agent: string)
    requires PrintTable(isPrint) && AclPrefixes(ps) && IriOk(url, ps) && IriOk(owner, ps)
    ensures var g := OwnerGraph(url, owner);
            && Parse(Print(isPrint, g, ps)) == Ok(g)
            && Evaluate(g, path, agent) == if IsAgent(owner, agent) then EVERYTHING else NOTHING
  {
    PrefixesOk(ps);
    OwnerTriples(url, owner, ps);
    AclRoundTrip(isPrint, OwnerGraph(url, owner), ps);
    OwnerGrants(url, owner, path, agent);
  }

  lemma PublicReadDocument(isPrint: char -> bool, ps: seq<(string, string)>, url: string, owner: string, path: string,
                           agent: string)
    requires PrintTable(isPrint) && AclPrefixes(ps) && IriOk(url, ps) && IriOk(owner, ps)
    ensures var g := PublicReadGraph(url, owner);
            && Parse(Print(isPrint, g, ps)) == Ok(g)
            && Evaluate(g, path, agent)
               == if owner != "" && IsAgent(owner, agent) then EVERYTHING else Mode(true, false, false, false)
  {
    PrefixesOk(ps);
    OwnerTriples(url, owner, ps);
    PublicTriples(url, ps);
    AclRoundTrip(isPrint, PublicReadGraph(url, owner), ps);
    PublicReadGrants(url, owner, path, agent);
  }

  lemma DefaultPublicDocument(isPrint: char -> bool, ps: seq<(string, string)>, url: string, owner: string,
                              path: string, agent: string)
    requires PrintTable(isPrint) && AclPrefixes(ps) && IriOk(url, ps) && IriOk(owner, ps)
    ensures var g := DefaultPublicGraph(url, owner);
            && Parse(Print(isPrint, g, ps)) == Ok(g)
            && Evaluate(g, path, agent)
               == if owner != "" && IsAgent(owner, agent) then EVERYTHING
                  else if agent != "" then Mode(true, true, true, false)
                  else Mode(true, false, false, false)
  {
    PrefixesOk(ps);
    OwnerTriples(url, owner, ps);
    PublicTriples(url, ps);
    AuthenticatedTriples(url, ps);
    AclRoundTrip(isPrint, DefaultPublicGraph(url, owner), ps);
    DefaultPublicGrants(url, owner, path, agent);
  }
}
