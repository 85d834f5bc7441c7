/** A regexp parameter may be empty although its regexp accepts no empty string: one route and one path that show it. */
module Fallback {
  import opened Wrappers
  import opened Pattern
  import opened Endpoints
  import opened Trie
  import opened TrieOrder
  import opened TrieSearch
  import opened Runs

  const GET := Method(8)
  const ROUTE := Route(GET, "/{i:d}/x", Some(User(0)), None)

  lemma BraceEnds()
    ensures CloseBrace("/{i:d}/x", 2, 1) == 5 && CloseBrace("{i:d}/x", 1, 1) == 4
  {
    var p, q := "/{i:d}/x", "{i:d}/x";
    assert CloseBrace(p, 5, 1) == 5;
    assert CloseBrace(p, 4, 1) == 5;
    assert CloseBrace(p, 3, 1) == 5;
    assert CloseBrace(q, 4, 1) == 4;
    assert CloseBrace(q, 3, 1) == 4;
    assert CloseBrace(q, 2, 1) == 4;
  }

  lemma BracePlaces()
    ensures IndexOf("/{i:d}/x", '{') == 1 && IndexOf("{i:d}/x", '{') == 0
    ensures IndexOf("/{i:d}/x", '*') < 0 && IndexOf("{i:d}/x", '*') < 0
  {
    assert "/{i:d}/x"[1..][0] == '{';
    assert '*' !in "/{i:d}/x" && '*' !in "{i:d}/x";
  }

  lemma KeyAndText()
    ensures IndexOf("i:d", ':') == 1 && "i:d"[..1] == "i" && "i:d"[2..] == "d" && Anchor("d") == "^d$"
  {
  }

  lemma WholeSegment()
    ensures NextSegment("/{i:d}/x") == Some(Segment(Regexp, "i", "^d$", '/', 1, 6))
  {
    hide CloseBrace;
    hide IndexOf;
    hide Anchor;
    var p := "/{i:d}/x";
    assert p[2..5] == "i:d" && p[6] == '/';
    BraceEnds();
    BracePlaces();
    KeyAndText();
  }

  lemma BraceFirst()
    ensures NextSegment("{i:d}/x") == Some(Segment(Regexp, "i", "^d$", '/', 0, 5))
  {
    hide CloseBrace;
    hide IndexOf;
    hide Anchor;
    var q := "{i:d}/x";
    assert q[1..4] == "i:d" && q[5] == '/';
    BraceEnds();
    BracePlaces();
    KeyAndText();
  }

  lemma Segments()
    ensures NextSegment("/{i:d}/x") == Some(Segment(Regexp, "i", "^d$", '/', 1, 6))
    ensures NextSegment("{i:d}/x") == Some(Segment(Regexp, "i", "^d$", '/', 0, 5))
    ensures NextSegment("/x") == Some(Segment(Static, "", "", NUL, 0, 2))
  {
    WholeSegment();
    BraceFirst();
  }

  // The trie that registering ROUTE builds, from the bottom up.

  ghost const LEAF := Register(EMPTY, ROUTE)
  ghost const REST := Tree(Static, '/', NUL, "/x", None, LEAF, NONE)
  ghost const ID := Tree(Regexp, '{', '/', "^d$", Some("^d$"), EMPTY, NONE.(statics := [REST]))
  ghost const SLASH := Tree(Static, '/', NUL, "/", None, EMPTY, NONE.(regexps := [ID]))

  lemma OnlyChild(t: Tree, k: Tree)
    requires t.kids == NONE
    ensures AddKid(t, k).kids == NONE.Put(k.typ, [k])
  {
    OrderedPermutes([k]);
    assert [] + [k] == [k];
    assert Ordered([k])[0] in Ordered([k]);
    assert Ordered([k]) == [k];
  }

  lemma Built()
    ensures Build([ROUTE]) == ROOT.(kids := NONE.(statics := [SLASH]))
  {
    hide NextSegment;
    hide Ordered;
    var p := "/{i:d}/x";
    Segments();
    assert Branch("/x", "/x", LEAF) == Some(REST);
    assert p[1..] == "{i:d}/x" && "{i:d}/x"[5..] == "/x" && p[..1] == "/";
    OnlyChild(Tree(Regexp, '{', '/', "^d$", Some("^d$"), EMPTY, NONE), REST);
    assert Branch("{i:d}/x", "", LEAF) == Some(ID);
    OnlyChild(Tree(Static, '/', NUL, "/", None, EMPTY, NONE), ID);
    assert Branch(p, p, LEAF) == Some(SLASH);
    assert Accepted(p) by { AcceptedHere(); }
    OnlyChild(ROOT, SLASH);
    assert Front(p) == Some(STATIC_SEGMENT);
    assert Insert(ROOT, p, ROUTE).tree == Attach(ROOT, p, ROUTE).tree;
    assert [ROUTE][..0] == [];
    assert Build([]) == ROOT;
  }

  lemma AcceptedHere()
    ensures Accepted("/{i:d}/x")
  {
    hide NextSegment;
    var p := "/{i:d}/x";
    Segments();
    SegmentTokens(p);
    assert p[6..] == "/x";
    SegmentTokens("/x");
    assert Keys(p) == ["i"] + Keys(p[6..]);
  }

  lemma BelowId(rx: Matcher)
    requires LEAF.endpoints != map[]
    ensures |Hits(ID, "/x", rx)| > 0 && Hits(ID, "/x", rx)[0] == Hit(Lits("/x"), [], LEAF)
  {
    assert "/x"[2..] == "";
    assert Arrive(REST, "", rx)[0] == Hit([], [], LEAF);
    assert KeyIndex(ID.kids.statics, Lit('/')) == 0;
    assert StaticHits(ID, "/x", rx) == Through(Lits("/x"), [], Arrive(REST, "", rx));
    assert Lits("/x") + [] == Lits("/x");
    assert StaticHits(ID, "/x", rx)[0] == Hit(Lits("/x"), [], LEAF);
  }

  lemma BelowSlash(rx: Matcher)
    requires LEAF.endpoints != map[]
    ensures |Hits(SLASH, "/x", rx)| > 0
    ensures Hits(SLASH, "/x", rx)[0] == Hit([EdgeKey(ID)] + Lits("/x"), [""], LEAF)
  {
    BelowId(rx);
    assert IndexOf("/x", '/') == 0 && Capture(ID, "/x", rx) == None;
    assert KidHits(SLASH, Regexp, 0, "/x", rx) == [];
    assert EachHits(SLASH, Regexp, 0, "/x", rx) == [];
    assert EachHits(SLASH, Regexp, 1, "/x", rx) == [];
    assert [""] + [] == [""];
    assert FallbackHits(SLASH, Regexp, "/x", rx) == Through([EdgeKey(ID)], [""], Hits(ID, "/x", rx));
    assert WildHits(SLASH, Regexp, "/x", rx)[0] == Hit([EdgeKey(ID)] + Lits("/x"), [""], LEAF);
    assert StaticHits(SLASH, "/x", rx) == [];
  }

  const REX := Rex("^d$", '/')
  const FOUND := Lits("/") + ([REX] + Lits("/x"))

  /** On the path `//x` the regexp stands right before its tail. */
  lemma BeforeTail(rx: Matcher)
    ensures Rejects(FOUND, "//x", rx) <==> !rx("^d$", "")
    ensures RegexpsAccept(FOUND, [""], rx) <==> rx("^d$", "")
  {
    var rest, below := [REX] + Lits("/x"), Lits("/x");
    assert FOUND[0] == Lit('/') && FOUND[1..] == rest && rest[1..] == below && "//x"[1..] == "/x";
    assert IndexOf("/x", '/') == 0 && Stop("/x", '/') == Some(0) && "/x"[0..] == "/x";
    LitsOnly("/x", "/x", rx);
    assert Rejects(rest, "/x", rx) <==> !rx("^d$", "");
    assert RegexpsAccept(rest, [""], rx) <==> rx("^d$", "") by { assert [""][1..] == []; }
  }

  lemma {:induction false} LitsOnly(text: string, path: string, rx: Matcher)
    ensures !Rejects(Lits(text), path, rx)
  {
    if text != "" && path != "" {
      assert Lits(text)[1..] == Lits(text[1..]);
      LitsOnly(text[1..], path[1..], rx);
    }
  }

  /**
   The path `//x` is served with the parameter bound to the empty string, whatever the
   regexp accepts: the claim that a captured value satisfies its regexp is false of every
   regexp that does not accept the empty string, and the condition of HitExact says so.
   */
  lemma RegexpMayBeEmpty(rx: Matcher)
    ensures var hits := Hits(Build([ROUTE]), "//x", rx);
            var i := FirstServing(hits, GET);
            && i < |hits| && hits[i].values == [""] && hits[i].route == FOUND
            && (!rx("^d$", "") ==> !RegexpsAccept(hits[i].route, hits[i].values, rx) && Rejects(hits[i].route, "//x", rx))
  {
    hide Register;
    hide Rejects;
    hide RegexpsAccept;
    BeforeTail(rx);
    Built();
    SetAllExact(map[], ROUTE, GET);
    assert LEAF.endpoints == SetAll(map[], ROUTE) by { RegisterIs(); }
    BelowSlash(rx);
    var t := ROOT.(kids := NONE.(statics := [SLASH]));
    assert "//x"[1..] == "/x" && KeyIndex(t.kids.statics, Lit('/')) == 0;
    var below := Hits(SLASH, "/x", rx);
    assert Arrive(SLASH, "/x", rx) == below by { assert [] + below == below; }
    assert StaticHits(t, "//x", rx) == Through(Lits("/"), [], below);
    var h := Hit(FOUND, [] + [""], LEAF);
    assert Hits(t, "//x", rx)[0] == h;
    assert [] + [""] == [""];
  }

  lemma RegisterIs()
    ensures LEAF.endpoints == SetAll(map[], ROUTE)
  {
  }
}
