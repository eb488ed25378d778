/** Web access control: generated ACL documents and how they are evaluated. */
module Wac {
  import opened Text
  import opened Lexis
  import opened Turtle
  import opened TurtleRoundTrip
  import opened TurtleLiterals

  const ACL := "http://www.w3.org/ns/auth/acl#"
  const FOAF := "http://xmlns.com/foaf/0.1/"
  const TYPE := "http://www.w3.org/1999/02/" + "22-rdf-syntax-ns#type"
  const AUTHORIZATION := ACL + "Authorization"
  const ACCESS_TO := ACL + "accessTo"
  const DEFAULT := ACL + "default"
  const AGENT := ACL + "agent"
  const AGENT_CLASS := ACL + "agentClass"
  const MODE := ACL + "mode"
  const READ := ACL + "Read"
  const WRITE := ACL + "Write"
  const APPEND := ACL + "Append"
  const CONTROL := ACL + "Control"
  const AUTHENTICATED := ACL + "AuthenticatedAgent"
  const EVERYONE := FOAF + "Agent"

  datatype Mode = Mode(read: bool, write: bool, append: bool, control: bool)

  const NOTHING := Mode(false, false, false, false)
  const EVERYTHING := Mode(true, true, true, true)

  /** Write implies Read and Append, and Control implies all. */
  predicate Allows(m: Mode, required: Mode): (ok: bool)
    ensures ok <==> && (required.read ==> m.read || m.write || m.control)
                    && (required.append ==> m.append || m.write || m.control)
                    && (required.write ==> m.write || m.control)
                    && (required.control ==> m.control)
  {
    if required.read && !m.read && !m.write && !m.control then false
    else if required.append && !m.append && !m.write && !m.control then false
    else if required.write && !m.write && !m.control then false
    else if required.control && !m.control then false
    else !(required.read && !(m.read || m.write || m.control))
  }

  // ----- Evaluation -----

  /** An agent that two IRIs stand for, whether or not they end in "#me". */
  predicate SameAgent(a: string, b: string) { TrimSuffix(a, "#me") == TrimSuffix(b, "#me") }

  predicate IsAgent(ag: string, agent: string) { agent != "" && (ag == agent || SameAgent(ag, agent)) }

  predicate Concerns(t: Triple, resource: string) {
    || t.predicate_ == DEFAULT
    || (t.predicate_ == ACCESS_TO &&
        (TrimPrefix(t.obj, "/") == resource || HasSuffix(t.obj, resource) || resource == ""))
  }

  predicate NamesAgents(t: Triple) { t.predicate_ == AGENT || t.predicate_ == AGENT_CLASS }

  function Authorizations(g: seq<Triple>, path: string): set<string> {
    var resource := TrimPrefix(path, "/");
    var found := set i | 0 <= i < |g| && Concerns(g[i], resource) :: g[i].subject;
    if found != {} then found else set i | 0 <= i < |g| && NamesAgents(g[i]) :: g[i].subject
  }

  predicate Applies(g: seq<Triple>, auth: string, agent: string) {
    || (exists ag :: ag in ObjectsOf(g, auth, AGENT) && IsAgent(ag, agent))
    || EVERYONE in ObjectsOf(g, auth, AGENT_CLASS)
    || (agent != "" && AUTHENTICATED in ObjectsOf(g, auth, AGENT_CLASS))
  }

  predicate Grants(g: seq<Triple>, auths: set<string>, agent: string, mode: string) {
    exists auth :: auth in auths && Applies(g, auth, agent) && mode in ObjectsOf(g, auth, MODE)
  }

  function ModesOf(g: seq<Triple>, auths: set<string>, agent: string): Mode {
    Mode(Grants(g, auths, agent, READ), Grants(g, auths, agent, WRITE),
         Grants(g, auths, agent, APPEND), Grants(g, auths, agent, CONTROL))
  }

  function Evaluate(g: seq<Triple>, path: string, agent: string): Mode {
    ModesOf(g, Authorizations(g, path), agent)
  }

  method EvaluateACL(g: Graph, path: string, agent: string) returns (mode: Mode)
    ensures mode == Evaluate(g.triples, path, agent)
  {
    var resource := TrimPrefix(path, "/");
    var auths: set<string> := {};
    for i := 0 to |g.triples|
      invariant auths == set k | 0 <= k < i && Concerns(g.triples[k], resource) :: g.triples[k].subject
    {
      var t := g.triples[i];
      if t.predicate_ == ACCESS_TO || t.predicate_ == DEFAULT {
        var obj := TrimPrefix(t.obj, "/");
        if t.predicate_ == ACCESS_TO {
          if obj == resource || HasSuffix(t.obj, resource) || resource == "" {
            auths := auths + {t.subject};
          }
        }
        if t.predicate_ == DEFAULT {
          auths := auths + {t.subject};
        }
      }
    }
    if auths == {} {
      for i := 0 to |g.triples|
        invariant auths == set k | 0 <= k < i && NamesAgents(g.triples[k]) :: g.triples[k].subject
      {
        var t := g.triples[i];
        if t.predicate_ == AGENT || t.predicate_ == AGENT_CLASS {
          auths := auths + {t.subject};
        }
      }
    }
    assert auths == Authorizations(g.triples, path);
    mode := NOTHING;
    ghost var done: set<string> := {};
    var rest := auths;
    while rest != {}
      invariant done + rest == auths && done !! rest
      invariant mode == ModesOf(g.triples, done, agent)
      decreases rest
    {
      var auth :| auth in rest;
      rest := rest - {auth};
      var before := mode;
      mode := AddModes(g, auth, agent, mode);
      GrantsMore(g.triples, done, auth, agent);
      done := done + {auth};
    }
    assert done == auths;
  }

  /** The two loops over the agents and agent classes of an authorization. */
  method FindAgent(g: Graph, auth: string, agent: string) returns (applies: bool)
    ensures applies == Applies(g.triples, auth, agent)
  {
    applies := false;
    var agents := g.Objects(auth, AGENT);
    for i := 0 to |agents|
      invariant applies <==> exists k :: 0 <= k < i && IsAgent(agents[k], agent)
    {
      if agent != "" && (agents[i] == agent || SameAgent(agents[i], agent)) {
        applies := true;
      }
    }
    assert applies <==> exists ag :: ag in agents && IsAgent(ag, agent);
    ghost var byAgent := applies;
    var classes := g.Objects(auth, AGENT_CLASS);
    for i := 0 to |classes|
      invariant applies <==> (byAgent || EVERYONE in classes[..i] || (agent != "" && AUTHENTICATED in classes[..i]))
    {
      if classes[i] == EVERYONE {
        applies := true;
      }
      if classes[i] == AUTHENTICATED && agent != "" {
        applies := true;
      }
    }
    assert classes[..|classes|] == classes;
  }

  /** The body of the loop over the authorizations. */
  method AddModes(g: Graph, auth: string, agent: string, from: Mode) returns (mode: Mode)
    ensures var m := if Applies(g.triples, auth, agent) then ObjectsOf(g.triples, auth, MODE) else [];
            mode == Mode(from.read || READ in m, from.write || WRITE in m, from.append || APPEND in m,
                         from.control || CONTROL in m)
  {
    mode := from;
    var applies := FindAgent(g, auth, agent);
    if !applies {
      return;
    }
    var modes := g.Objects(auth, MODE);
    ModesDiffer();
    for i := 0 to |modes|
      invariant mode == Mode(from.read || READ in modes[..i], from.write || WRITE in modes[..i],
                             from.append || APPEND in modes[..i], from.control || CONTROL in modes[..i])
    {
      if modes[i] == READ {
        mode := mode.(read := true);
      } else if modes[i] == WRITE {
        mode := mode.(write := true);
      } else if modes[i] == APPEND {
        mode := mode.(append := true);
      } else if modes[i] == CONTROL {
        mode := mode.(control := true);
      }
    }
    assert modes[..|modes|] == modes;
  }

  lemma ModesDiffer()
    ensures READ != WRITE && READ != APPEND && READ != CONTROL
            && WRITE != APPEND && WRITE != CONTROL && APPEND != CONTROL
  {
    assert READ[30] == 'R' && WRITE[30] == 'W' && APPEND[30] == 'A' && CONTROL[30] == 'C';
  }

  lemma GrantsMore(g: seq<Triple>, done: set<string>, auth: string, agent: string)
    ensures forall mode :: Grants(g, done + {auth}, agent, mode) <==>
              Grants(g, done, agent, mode) || (Applies(g, auth, agent) && mode in ObjectsOf(g, auth, MODE))
  {
  }

  // ----- Generated documents -----

  function OwnerGraph(url: string, owner: string): seq<Triple> {
    [IriTriple("#owner", TYPE, AUTHORIZATION), IriTriple("#owner", AGENT, owner),
     IriTriple("#owner", ACCESS_TO, url), IriTriple("#owner", DEFAULT, url),
     IriTriple("#owner", MODE, READ), IriTriple("#owner", MODE, WRITE),
     IriTriple("#owner", MODE, APPEND), IriTriple("#owner", MODE, CONTROL)]
  }

  function PublicGraph(url: string): seq<Triple> {
    [IriTriple("#public", TYPE, AUTHORIZATION), IriTriple("#public", AGENT_CLASS, EVERYONE),
     IriTriple("#public", ACCESS_TO, url), IriTriple("#public", DEFAULT, url), IriTriple("#public", MODE, READ)]
  }

  function AuthenticatedGraph(url: string): seq<Triple> {
    [IriTriple("#authenticated", TYPE, AUTHORIZATION), IriTriple("#authenticated", AGENT_CLASS, AUTHENTICATED),
     IriTriple("#authenticated", ACCESS_TO, url), IriTriple("#authenticated", DEFAULT, url),
     IriTriple("#authenticated", MODE, READ), IriTriple("#authenticated", MODE, WRITE),
     IriTriple("#authenticated", MODE, APPEND)]
  }

  function WithOwner(g: seq<Triple>, url: string, owner: string): seq<Triple> {
    if owner == "" then g else g + OwnerGraph(url, owner)
  }

  function PublicReadGraph(url: string, owner: string): seq<Triple> { WithOwner(PublicGraph(url), url, owner) }

  function DefaultPublicGraph(url: string, owner: string): seq<Triple> {
    WithOwner(PublicGraph(url) + AuthenticatedGraph(url), url, owner)
  }

  /** Concatenation, said so that adding to nothing is no concatenation. */
  function After(a: seq<Triple>, b: seq<Triple>): seq<Triple> { if a == [] then b else a + b }

  method AddOwnerAuth(g: Graph, url: string, owner: string)
    modifies g
    ensures g.triples == After(old(g.triples), OwnerGraph(url, owner))
  {
    g.AddIRI("#owner", TYPE, AUTHORIZATION);
    g.AddIRI("#owner", AGENT, owner);
    g.AddIRI("#owner", ACCESS_TO, url);
    g.AddIRI("#owner", DEFAULT, url);
    g.AddIRI("#owner", MODE, READ);
    g.AddIRI("#owner", MODE, WRITE);
    g.AddIRI("#owner", MODE, APPEND);
    g.AddIRI("#owner", MODE, CONTROL);
  }

  method AddPublicAuth(g: Graph, url: string)
    modifies g
    ensures g.triples == After(old(g.triples), PublicGraph(url))
  {
    g.AddIRI("#public", TYPE, AUTHORIZATION);
    g.AddIRI("#public", AGENT_CLASS, EVERYONE);
    g.AddIRI("#public", ACCESS_TO, url);
    g.AddIRI("#public", DEFAULT, url);
    g.AddIRI("#public", MODE, READ);
  }

  method AddAuthenticatedAuth(g: Graph, url: string)
    modifies g
    ensures g.triples == After(old(g.triples), AuthenticatedGraph(url))
  {
    g.AddIRI("#authenticated", TYPE, AUTHORIZATION);
    g.AddIRI("#authenticated", AGENT_CLASS, AUTHENTICATED);
    g.AddIRI("#authenticated", ACCESS_TO, url);
    g.AddIRI("#authenticated", DEFAULT, url);
    g.AddIRI("#authenticated", MODE, READ);
    g.AddIRI("#authenticated", MODE, WRITE);
    g.AddIRI("#authenticated", MODE, APPEND);
  }

  const PREFIXES := [("acl", ACL), ("foaf", FOAF)]

  /** `ps` is the prefix map of the three generators in some order. */
  ghost predicate AclPrefixes(ps: seq<(string, string)>) { ps == PREFIXES || ps == [PREFIXES[1], PREFIXES[0]] }

  method OwnerOnlyACL(isPrint: char -> bool, ps: seq<(string, string)>, url: string,
                      owner: string) returns (text: string)
    ensures text == Print(isPrint, OwnerGraph(url, owner), ps)
  {
    var g := new Graph();
    AddOwnerAuth(g, url, owner);
    text := SerializeTurtle(isPrint, g, ps);
  }

  method PublicReadACL(isPrint: char -> bool, ps: seq<(string, string)>, url: string,
                       owner: string) returns (text: string)
    ensures text == Print(isPrint, PublicReadGraph(url, owner), ps)
  {
    var g := new Graph();
    AddPublicAuth(g, url);
    if owner != "" {
      AddOwnerAuth(g, url, owner);
    }
    text := SerializeTurtle(isPrint, g, ps);
  }

  method DefaultPublicACL(isPrint: char -> bool, ps: seq<(string, string)>, url: string,
                          owner: string) returns (text: string)
    ensures text == Print(isPrint, DefaultPublicGraph(url, owner), ps)
  {
    var g := new Graph();
    AddPublicAuth(g, url);
    AddAuthenticatedAuth(g, url);
    if owner != "" {
      AddOwnerAuth(g, url, owner);
    }
    text := SerializeTurtle(isPrint, g, ps);
  }
}
