/** When a path may be mounted, and what becomes of a second mount of the same pattern. */
module Remount {
  import opened Wrappers
  import opened Pattern
  import opened Endpoints
  import opened Middleware
  import opened TrieLookup
  import opened Runs
  import opened TrieCover
  import opened MuxSteps

  /** A pattern that a mount may register, whatever the trie holds. */
  ghost predicate Mountable(pattern: string) {
    forall p <- Mounts(pattern) :: Rooted(p) && Accepted(p)
  }

  /** A sequence of registrations succeeds exactly if every pattern begins with `/` and is accepted. */
  lemma {:induction false} AllAccepted(f: Family, i: nat, patterns: seq<string>, n: nat, sub: nat)
    requires i < |f.muxes| && n <= |patterns|
    ensures HandleAll(f, i, patterns, n, sub).ok <==> forall k :: n <= k < |patterns| ==> Rooted(patterns[k]) && Accepted(patterns[k])
    decreases |patterns| - n
  {
    hide Accepted;
    hide Rooted;
    if n < |patterns| {
      var last := if n == |patterns| - 1 then Some(sub) else None;
      HandleSucceeds(f, i, patterns[n], Some(Mounted(sub)), last);
      var r := Handle(f, i, MOUNTED, patterns[n], Some(Mounted(sub)), last);
      if r.ok {
        AllAccepted(r.family, i, patterns, n + 1, sub);
      }
    }
  }

  lemma HandleSucceeds(f: Family, i: nat, pattern: string, h: Option<Handler>, sub: Option<nat>)
    requires i < |f.muxes|
    ensures Handle(f, i, MOUNTED, pattern, h, sub).ok <==> Rooted(pattern) && Accepted(pattern)
  {
    hide Accepted;
  }

  /** The registrations stop at the first pattern that throws; those made before stay. */
  lemma {:induction false} StopsAtThrow(f: Family, i: nat, patterns: seq<string>, n: nat, k: nat, sub: nat)
    requires i < |f.muxes| && n <= k < |patterns| && !(Rooted(patterns[k]) && Accepted(patterns[k]))
    requires forall l :: n <= l < k ==> Rooted(patterns[l]) && Accepted(patterns[l])
    ensures var g := HandleAll(f, i, patterns, n, sub).family;
            && f.entries <= g.entries && |g.entries| == |f.entries| + (k - n) + (if Rooted(patterns[k]) then 1 else 0)
            && forall l :: n <= l < k ==> g.entries[|f.entries| + l - n].route.pattern == patterns[l]
    decreases k - n
  {
    hide Accepted;
    hide Rooted;
    HandleAllStep(f, i, patterns, n, sub);
    var last := if n == |patterns| - 1 then Some(sub) else None;
    HandleSucceeds(f, i, patterns[n], Some(Mounted(sub)), last);
    if n < k {
      StopsAtThrow(Handle(f, i, MOUNTED, patterns[n], Some(Mounted(sub)), last).family, i, patterns, n + 1, k, sub);
    }
  }

  /** A mount succeeds exactly if the pattern may be mounted and the path is not taken; on a taken path it changes nothing. */
  lemma MountExact(f: Family, i: nat, pattern: string, sub: nat)
    requires i < |f.muxes|
    ensures Mount(f, i, pattern, sub).ok <==> Mountable(pattern) && !Taken(Log(f.entries), pattern)
    ensures Taken(Log(f.entries), pattern) ==> Mount(f, i, pattern, sub) == Result(f, false)
  {
    hide Taken;
    hide HandleAll;
    hide Accepted;
    hide Rooted;
    hide Mounts;
    AllAccepted(f, i, Mounts(pattern), 0, sub);
    var ps := Mounts(pattern);
    assert forall k :: 0 <= k < |ps| ==> ps[k] in ps;
  }

  /** On a path that is not taken, a pattern that ends in `/` is mounted by one registration. */
  lemma OneRegistration(f: Family, i: nat, pattern: string, sub: nat)
    requires i < |f.muxes| && Rooted(pattern) && pattern[|pattern| - 1] == '/' && !Taken(Log(f.entries), pattern)
    ensures Mount(f, i, pattern, sub) == Handle(f, i, MOUNTED, pattern + "*", Some(Mounted(sub)), Some(sub))
  {
    hide Taken;
    hide Handle;
    var r := Handle(f, i, MOUNTED, pattern + "*", Some(Mounted(sub)), Some(sub));
    assert HandleAll(r.family, i, Mounts(pattern), 1, sub) == Result(r.family, true);
    assert HandleAll(f, i, Mounts(pattern), 0, sub) == if r.ok then HandleAll(r.family, i, Mounts(pattern), 1, sub) else r;
  }

  /** The registrations of a mount under a pattern that does not end in `/`; the last one records the router. */
  function ThreeRoutes(pattern: string, h: Option<Handler>, sub: nat): seq<Route> {
    [Route(MOUNTED, pattern, h, None), Route(MOUNTED, pattern + "/", h, None), Route(MOUNTED, pattern + "/*", h, Some(sub))]
  }

  lemma HandleLog(f: Family, i: nat, pattern: string, h: Option<Handler>, sub: Option<nat>)
    requires i < |f.muxes| && Rooted(pattern)
    ensures var g := Handle(f, i, MOUNTED, pattern, h, sub).family;
            && Log(g.entries) == Log(f.entries) + [Route(MOUNTED, pattern, Wrapped(f.muxes[i], h), sub)]
            && Wrapped(g.muxes[i], h) == Wrapped(f.muxes[i], h)
  {
  }

  /**
   A mount that succeeds under a pattern that does not end in `/` makes three registrations,
   of the pattern, of the pattern with `/`, and of the wildcard, all with one handler, which enters
   the mounted router through the stack of the inline router that it was mounted through.
   */
  lemma ThreeRegistrations(f: Family, i: nat, pattern: string, sub: nat) returns (h: Option<Handler>)
    requires i < |f.muxes| && pattern != "" && pattern[|pattern| - 1] != '/' && Mount(f, i, pattern, sub).ok
    ensures Log(Mount(f, i, pattern, sub).family.entries) == Log(f.entries) + ThreeRoutes(pattern, h, sub)
    ensures Core(h) == Some(Mounted(sub)) && Layers(h) == if f.muxes[i].isInline then f.muxes[i].middlewares else []
  {
    hide Handle;
    hide Taken;
    hide HandleAll;
    hide Wrapped;
    hide Accepted;
    var enter, ps := Some(Mounted(sub)), Mounts(pattern);
    h := Wrapped(f.muxes[i], enter);
    WrappedLayers(f.muxes[i], enter);
    MountExact(f, i, pattern, sub);
    assert ps[0] in ps && ps[1] in ps && ps[2] in ps;
    HandleAllStep(f, i, ps, 0, sub);
    HandleLog(f, i, ps[0], enter, None);
    var f1 := Handle(f, i, MOUNTED, ps[0], enter, None).family;
    HandleAllStep(f1, i, ps, 1, sub);
    HandleLog(f1, i, ps[1], enter, None);
    var f2 := Handle(f1, i, MOUNTED, ps[1], enter, None).family;
    HandleAllStep(f2, i, ps, 2, sub);
    HandleLog(f2, i, ps[2], enter, Some(sub));
    var f3 := Handle(f2, i, MOUNTED, ps[2], enter, Some(sub)).family;
    HandleAllStep(f3, i, ps, 3, sub);
    HandleSucceeds(f, i, ps[0], enter, None);
    HandleSucceeds(f1, i, ps[1], enter, None);
    HandleSucceeds(f2, i, ps[2], enter, Some(sub));
    assert Mount(f, i, pattern, sub) == HandleAll(f, i, ps, 0, sub);
  }

  /** A path is taken exactly if the walk of the lookup arrives for one of the two texts that are looked up. */
  lemma TakenExact(log: seq<Route>, pattern: string)
    ensures Taken(log, pattern) <==> Goes(Build(log), pattern + "*") || Goes(Build(log), pattern + "/*")
  {
    hide FindPattern;
    hide Goes;
    hide Build;
    TrieIsTable(log, []);
    FindPatternGoes(Build(log), pattern + "*");
    FindPatternGoes(Build(log), pattern + "/*");
  }

  /**
   Once a pattern has been mounted anywhere, a mount of it on any trie succeeds exactly if
   neither walk arrives there; otherwise it throws and changes nothing.
   */
  lemma SecondMount(f: Family, i: nat, pattern: string, sub: nat, g: Family, j: nat, sub': nat)
    requires i < |f.muxes| && Mount(f, i, pattern, sub).ok && j < |g.muxes|
    ensures var t, r := Build(Log(g.entries)), Mount(g, j, pattern, sub');
            && (r.ok <==> !Goes(t, pattern + "*") && !Goes(t, pattern + "/*"))
            && (!r.ok ==> r == Result(g, false))
  {
    hide Mount;
    hide Goes;
    hide Build;
    hide Taken;
    hide Mountable;
    MountExact(f, i, pattern, sub);
    MountExact(g, j, pattern, sub');
    TakenExact(Log(g.entries), pattern);
  }

  /** The wildcard that a mount registers last. */
  function Wildcard(pattern: string): string {
    Mounts(pattern)[|Mounts(pattern)| - 1]
  }

  lemma WildcardLookedUp(pattern: string)
    ensures Wildcard(pattern) == pattern + "*" || Wildcard(pattern) == pattern + "/*"
    ensures Wildcard(pattern) != "" && Wildcard(pattern) in Mounts(pattern)
  {
  }

  /** On every run, the wildcard of a mount that succeeded is accepted and stays registered. */
  lemma StaysRegistered(f: Family, i: nat, pattern: string, sub: nat, calls: seq<(nat, Op)>) returns (n: nat)
    requires FamilyOk(f) && i < |f.muxes| && Mount(f, i, pattern, sub).ok
    ensures var log := Log(Run(Mount(f, i, pattern, sub).family, calls).entries);
            n < |log| && log[n].pattern == Wildcard(pattern) && Accepted(Wildcard(pattern))
  {
    hide Accepted;
    hide Rooted;
    hide Taken;
    hide Run;
    hide HandleAll;
    hide FamilyOk;
    hide Later;
    var now := Mount(f, i, pattern, sub).family;
    HandleAllOk(f, i, Mounts(pattern), 0, sub);
    FrozenForever(now, calls);
    var g := Run(now, calls);
    StillHas(now, g, Wildcard(pattern));
    var e :| e in g.entries && e.route.pattern == Wildcard(pattern);
    n :| 0 <= n < |g.entries| && g.entries[n] == e;
    MountExact(f, i, pattern, sub);
    WildcardLookedUp(pattern);
  }

  /**
   On every run after a mount that succeeded: a later mount of the same pattern, through
   whichever router, is refused if the wildcard's parameters are closed by the first `}`
   after them and either the lookup takes the wanted nodes, or no registered pattern has
   another parameter or regexp where the wildcard has one.
   */
  lemma DuplicateMount(f: Family, i: nat, pattern: string, sub: nat, calls: seq<(nat, Op)>, j: nat, sub': nat)
    requires FamilyOk(f) && i < |f.muxes| && Mount(f, i, pattern, sub).ok
    requires j < |Run(Mount(f, i, pattern, sub).family, calls).muxes|
    ensures var g := Run(Mount(f, i, pattern, sub).family, calls);
            var log := Log(g.entries);
            && Tokens(Wildcard(pattern)).Some?
            && (Flat(Wildcard(pattern)) && Middle(Build(log), Tokens(Wildcard(pattern)).value)
                ==> Mount(g, j, pattern, sub') == Result(g, false))
            && (Flat(Wildcard(pattern)) && Alone(log, Tokens(Wildcard(pattern)).value)
                ==> Mount(g, j, pattern, sub') == Result(g, false))
  {
    hide Mount;
    hide Run;
    hide FindPattern;
    hide Goes;
    hide Tokens;
    hide Build;
    hide FamilyOk;
    hide Flat;
    hide Middle;
    hide Alone;
    var g := Run(Mount(f, i, pattern, sub).family, calls);
    var log, p := Log(g.entries), Wildcard(pattern);
    var n := StaysRegistered(f, i, pattern, sub, calls);
    WildcardLookedUp(pattern);
    MountedIsFound(log, n, p);
    SecondMount(f, i, pattern, sub, g, j, sub');
    if Alone(log, Tokens(p).value) {
      AloneMiddle(log, Tokens(p).value);
    }
  }

  /** For literal text that is so on every run. */
  lemma DuplicateTextMount(f: Family, i: nat, pattern: string, sub: nat, calls: seq<(nat, Op)>, j: nat, sub': nat)
    requires FamilyOk(f) && i < |f.muxes| && Mount(f, i, pattern, sub).ok && Plain(pattern)
    requires j < |Run(Mount(f, i, pattern, sub).family, calls).muxes|
    ensures var g := Run(Mount(f, i, pattern, sub).family, calls); Mount(g, j, pattern, sub') == Result(g, false)
  {
    hide Mount;
    hide Run;
    hide Tokens;
    hide Flat;
    var text := if pattern == "" || pattern[|pattern| - 1] != '/' then pattern + "/" else pattern;
    assert Wildcard(pattern) == text + "*" by { assert pattern + "/" + "*" == pattern + "/*"; }
    PlainFlat(text);
    DuplicateMount(f, i, pattern, sub, calls, j, sub');
    var g := Run(Mount(f, i, pattern, sub).family, calls);
    PlainMiddle(Build(Log(g.entries)), Lits(text) + [Star]);
  }
}
