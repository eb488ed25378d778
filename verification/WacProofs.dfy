/** Who may do what under the generated ACL documents, once printed and parsed again. */
module WacProofs {
  import opened Text
  import opened Turtle
  import opened TurtleRoundTrip
  import opened TurtleLiterals
  import opened Wac

  // ----- Terms that survive printing -----

  lemma BareHasColon(s: string)
    requires Bare(s)
    ensures ':' in s
  {
    if HasPrefix(s, "_:") {
      assert s[1] == ':';
    } else {
      var i := Index(s, ":");
      assert s[i..i + 1] == ":";
      assert s[i] == ':';
    }
  }

  /** The shape of the fixed terms: absolute IRIs and fragments, without brackets. */
  ghost predicate Simple(s: string) {
    && '<' !in s && '>' !in s && '\n' !in s
    && ("http://" <= s || (s != "" && s[0] == '#' && ':' !in s))
  }

  /** A resource URL or owner IRI that survives printing. */
  ghost predicate IriOk(s: string, ps: seq<(string, string)>) {
    TermOk(s) && TermFaithful(s, PrefixMap(ps, map[]))
  }

  /** Any absolute IRI with an authority part survives, brackets and newlines apart. */
  lemma AbsoluteIsOk(s: string, ps: seq<(string, string)>)
    requires Contains(s, "://") && !HasPrefix(s, "_:") && '<' !in s && '>' !in s && '\n' !in s
    ensures IriOk(s, ps)
  {
    UnbracketedIsOk(s, ps);
  }

  lemma UnbracketedIsOk(s: string, ps: seq<(string, string)>)
    requires !Bare(s) && '<' !in s && '>' !in s && '\n' !in s
    ensures IriOk(s, ps) && FormatTerm(s) != "" && FormatTerm(s)[0] == '<'
  {
    assert s != "" ==> s[0] in s && s[|s| - 1] in s;
    TrimAnglesFixed(s);
  }

  lemma SimpleIsOk(s: string, ps: seq<(string, string)>)
    requires Simple(s)
    ensures IriOk(s, ps) && FormatTerm(s) != "" && FormatTerm(s)[0] == '<'
  {
    if "http://" <= s {
      assert s[0] == 'h' && s[4] == ':' && s[5] == '/' && s[6] == '/';
      assert s[4..7] == "://";
      IndexFinds(s, "://", 4);
    } else if Bare(s) {
      BareHasColon(s);
    }
    UnbracketedIsOk(s, ps);
  }

  // ----- The fixed terms -----

  ghost predicate Clean(s: string) { forall i :: 0 <= i < |s| ==> s[i] != '<' && s[i] != '>' && !IsSpace(s[i]) }

  lemma AclIsClean()
    ensures Clean(ACL) && "http://" <= ACL
  {
  }

  lemma FoafIsClean()
    ensures Clean(FOAF) && "http://" <= FOAF
  {
  }

  lemma JoinedIsSimple(base: string, name: string)
    requires Clean(base) && "http://" <= base && Clean(name)
    ensures Simple(base + name)
  {
    assert IsSpace('\n');
  }

  lemma TypeIsSimple()
    ensures Simple(TYPE)
  {
    assert Clean("http://www.w3.org/1999/02/") && "http://" <= "http://www.w3.org/1999/02/";
    assert Clean("22-rdf-syntax-ns#type");
    JoinedIsSimple("http://www.w3.org/1999/02/", "22-rdf-syntax-ns#type");
  }

  lemma FragmentIsSimple(name: string)
    requires Clean(name) && ':' !in name
    ensures Simple("#" + name)
  {
    assert IsSpace('\n');
    assert "#" + name == ['#'] + name;
  }

  lemma FragmentsAreSimple()
    ensures Simple("#owner") && Simple("#public") && Simple("#authenticated")
  {
    FragmentIsSimple("owner");
    FragmentIsSimple("public");
    FragmentIsSimple("authenticated");
    assert "#owner" == "#" + "owner" && "#public" == "#" + "public" && "#authenticated" == "#" + "authenticated";
  }

  lemma PredicatesAreSimple()
    ensures Simple(ACCESS_TO) && Simple(DEFAULT) && Simple(AGENT) && Simple(AGENT_CLASS) && Simple(MODE)
  {
    AclIsClean();
    JoinedIsSimple(ACL, "accessTo");
    JoinedIsSimple(ACL, "default");
    JoinedIsSimple(ACL, "agent");
    JoinedIsSimple(ACL, "agentClass");
    JoinedIsSimple(ACL, "mode");
  }

  lemma ObjectsAreSimple()
    ensures Simple(AUTHORIZATION) && Simple(AUTHENTICATED) && Simple(EVERYONE)
    ensures Simple(READ) && Simple(WRITE) && Simple(APPEND) && Simple(CONTROL)
  {
    AclIsClean();
    FoafIsClean();
    JoinedIsSimple(ACL, "Authorization");
    JoinedIsSimple(ACL, "AuthenticatedAgent");
    JoinedIsSimple(FOAF, "Agent");
    JoinedIsSimple(ACL, "Read");
    JoinedIsSimple(ACL, "Write");
    JoinedIsSimple(ACL, "Append");
    JoinedIsSimple(ACL, "Control");
  }

  lemma PrefixesOk(ps: seq<(string, string)>)
    requires AclPrefixes(ps)
    ensures forall i :: 0 <= i < |ps| ==> PrefixOk(ps[i].0, ps[i].1)
  {
    AclIsClean();
    FoafIsClean();
    IriPrefixOk("acl", ACL);
    IriPrefixOk("foaf", FOAF);
  }

  lemma IriPrefixOk(name: string, iri: string)
    requires Clean(iri) && forall i :: 0 <= i < |name| ==> 'a' <= name[i] <= 'z'
    ensures PrefixOk(name, iri)
  {
  }

  // ----- The documents are read back as they were -----

  /** A triple of the documents: fixed terms, but for objects that survive printing. */
  ghost predicate AclTriple(t: Triple, ps: seq<(string, string)>) {
    && t == IriTriple(t.subject, t.predicate_, t.obj)
    && Simple(t.subject) && Simple(t.predicate_) && (Simple(t.obj) || IriOk(t.obj, ps))
  }

  lemma AclTripleReads(isPrint: char -> bool, t: Triple, ps: seq<(string, string)>)
    requires AclTriple(t, ps)
    ensures TripleOk(t) && Faithful(isPrint, t, PrefixMap(ps, map[]))
    ensures !Keyword(FormatTerm(t.subject))
  {
    SimpleIsOk(t.subject, ps);
    SimpleIsOk(t.predicate_, ps);
    if Simple(t.obj) {
      SimpleIsOk(t.obj, ps);
    }
  }

  lemma AclRoundTrip(isPrint: char -> bool, g: seq<Triple>, ps: seq<(string, string)>)
    requires PrintTable(isPrint)
    requires forall i :: 0 <= i < |ps| ==> PrefixOk(ps[i].0, ps[i].1)
    requires forall i :: 0 <= i < |g| ==> AclTriple(g[i], ps)
    ensures Parse(Print(isPrint, g, ps)) == Ok(g)
  {
    forall i | 0 <= i < |g|
      ensures TripleOk(g[i]) && Faithful(isPrint, g[i], PrefixMap(ps, map[])) && !Keyword(FormatTerm(g[i].subject))
    {
      AclTripleReads(isPrint, g[i], ps);
    }
    RoundTrip(isPrint, g, ps);
  }
}
