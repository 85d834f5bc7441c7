# A verified model of the HTTP router

The repository's HTTP router keeps its routes in a radix trie that is updated in place: nodes
are split, parameter nodes are shared between patterns, child groups are kept in order, and a
backtracking search captures parameter values in a context that all routers on a request's way
share. Routers mount each other, and inline routers share the trie of the router they were made
from. This project models that router, and the string and header code beside it, and proves what
the trie, the search and the mounting do on every input, every reachable trie and every run.

How it is laid out:

- `Pattern.dfy`, `PatternParser.dfy`: patterns as token sequences with parameter names erased, and
  the segment parser, proved to agree with a parser that reads a pattern character by character.
- `Endpoints.dfy`, `Context.dfy`, `Middleware.dfy`: endpoint tables, the routing context, middleware chains.
- `Trie.dfy`, `TrieOrder.dfy`, `TrieSteps.dfy`, `TrieContents.dfy`: the trie as a value, its invariant,
  its contents, and the proof that registration refines a map from tokens to leaves.
- `TrieSearch.dfy`, `TrieHits.dfy`, `SearchReport.dfy`, `TrieLookup.dfy`: the search as an ordered enumeration
  of hits; exactly what it enumerates; what one search reports; and the lookup that mounting relies on.
- `TrieRank.dfy`, `Filling.dfy`: the order in which walks are tried, told without the enumeration; and when a
  search finds a pattern on the path that the filled pattern is, told without the search's own terms.
- `TrieNode.dfy`: the class that is updated in place. Each node carries, as ghost state, the tree it stands
  for; registration, search and lookup on the heap are proved to do what the functions above say.
- `Runs.dfy`, `Fallback.dfy`: what holds after any sequence of registrations, and one route and path
  that show where the documented meaning of a regexp parameter does not hold.
- `TrieCover.dfy`: every walk in a trie is the beginning of some registered pattern.
- `MuxSteps.dfy`, `Remount.dfy`, `Site.dfy`, `Hops.dfy`, `Muxes.dfy`: routers as state machines, what a mount
  registers and when a path may be mounted again, sites of mounted routers, what a mounted router is asked and
  when `match` agrees with dispatch, and the router class.
- `Counterexamples.dfy`: second mounts that are accepted, and requests on which `match` and dispatch disagree.
- `StrUtils.dfy`, `HttpHeader.dfy`: string replacing and splitting, and the header multimap.

The main results are these.

- **The trie is a map.** After any registrations, accepted or refused, the leaf under any token
  sequence is what a plain table updated by the accepted ones has there, and the trie invariant holds
  (`TrieContents.InsertRefines`, `Runs.TrieIsTable`); `TrieNode.Node.InsertRoute` does on the heap exactly
  what that function says, and its loop terminates.
- **A search is the first hit.** The backtracking walk returns the first entry of a pure enumeration
  that has a handler for the method, restores the captured values and keys when it fails, and sets
  the method hint exactly if an earlier entry had none (`TrieNode.Node.FindRouteHelper`).
- **The first hit is the right one.** Two walks are compared where they part: literal text before regexps, regexps
  before parameters, those before a catch-all; a capture before the empty fallback; then by the place in the group.
  Of two different hits the one that comes before is met first (`TrieRank.OrderExact`), any two walks that use up
  the path compare (`TrieRank.WalksCompare`), and what a search returns comes before every other walk to a handler
  for the method, on every reachable trie (`TrieRank.SearchIsFirst`).
- **Hits are walks.** The enumeration holds exactly the nodes with endpoints that a walk through the trie
  reaches, each with that walk's values, whatever is registered (`TrieHits.HitsExact`). So a search succeeds
  exactly if a walk reaches a leaf with a handler for the method (`Runs.SearchExact`), a failed one sets the
  hint exactly if a walk reaches a leaf without one (`Runs.HintExact`), and filling the found pattern with the
  captured values gives the path back (`Runs.MatchRoundTrip`). Every strict derivation is such a walk
  (`Runs.SearchComplete`), and where no pattern needs the empty fallback there are no others (`Runs.SearchStraight`).
- **The round trip closes.** A pattern derives a path with some values if and only if the filled pattern is the path
  and each value fits its place: no `/` in a parameter's, a regexp's not empty and accepted, and each free of its
  tail and followed by it, or at the end of the path if the tail is `/` (`Filling.DerivesExact`). So on every path a
  registered pattern can be filled to, the search finds a handler (`Filling.SearchFinds`).
- **Methods.** A registration for one method changes that method's endpoint and no other valid one's, one for all
  methods or for a mount changes all (`Endpoints.OneMethod`, `Endpoints.AllMethods`); where the path reaches only
  patterns that were registered for other methods, a method is not served (`Runs.OtherMethods`).
- **Mounting.** Paths are conserved and parameter stacks stay aligned through any depth of mounts, and every name
  but the wildcard's has the value of the innermost router that binds it (`Site.InnermostBinds`). A router mounted at
  literal text is asked for the root path when the mounted path itself is requested, for the rest from its `/` on for
  any path below, and for nothing else (`Hops.AfterMount`). A second mount of the same literal text is refused on
  every run; a router whose handler is set never changes again.
- **match.** A router without a walk to a handler matches nothing (`Hops.MatchNeedsWalk`). As long as no other
  registration has overwritten a mount, `match` refuses nothing that dispatch would serve, and accepts nothing else
  but what it overlooks (`Hops.MatchDispatch`, below).

Where the code and its documentation disagree the model follows the code, and says exactly where.

- A regexp parameter may be bound to the empty string although its regexp does not accept it, because the last
  node of a group is tried once more with an empty value. `Fallback.RegexpMayBeEmpty` is the input. With
  parameters followed by their tails, every regexp accepts its value if and only if the path does not reach a
  regexp that rejects the empty string right before that regexp's tail (`Runs.Rejects`, a condition on pattern
  and path alone; `Runs.FallbackExact`, `Runs.HitExact`).
- A second mount of the same pattern is documented to throw. It need not, for two reasons. The lookup takes the
  middle node of a group, and regexps before parameters: `Counterexamples.MountedTwice` is an input. And it cuts a
  parameter at the first `}`, so that braces inside one lead it astray even on a fresh router:
  `Counterexamples.FreshMountedTwice`. For every pattern the second mount succeeds if and only if the walk of the
  lookup arrives for neither of the two texts that are looked up (`Remount.SecondMount`; `TrieLookup.Goes` is that
  walk, on any trie and any text). It is refused on every run for literal text, and for any pattern whose
  parameters are closed by the first `}` after them if no other registered pattern has another parameter or regexp
  in the same place (`Remount.DuplicateTextMount`, `Remount.DuplicateMount`).
- `match` refuses a request that is served when a handler was registered over a mounted wildcard:
  `Counterexamples.MatchRefusesServed`, on a log that a router reaches (`Counterexamples.Reachable`). Of the requests
  that dispatch serves it refuses exactly those that stray (`Site.MatchExact`): those that come to a recorded router
  which the handler beside it does not enter, and which refuses the rest. `Site.StillIntact` gives a condition on
  the registrations under which none does.
- `match` accepts a request that dispatch answers with not found when the mounted path itself is requested, because
  only the wildcard's node records the mounted router: `Counterexamples.MatchOverlooks`, an empty router mounted at
  `/a`. Where mounts are intact the two agree if and only if the request does not end at such a leaf with a mounted
  router that answers not found (`Hops.MatchIffDispatch`), and so on every request if routers are mounted only at
  patterns that end in `/` (`Hops.NothingOverlooked`).
- A string that is the delimiter is not split: `StrUtils.ReplaceIsJoin` and `StrUtils.SplitClear` say exactly
  where that matters.

Every `std::logic_error` is modelled as `None`, a null node or a false flag; what a call did before it
threw stays done. Handlers are terms, middlewares are numbers, routers are numbers; a router's number is
greater than those of the routers mounted in it. A `Matcher` stands for `std::regex_search`.

## Model

| member | source | states |
|---|---|---|
| Pattern.SegmentTokens | Development Project/Sparcpoint.Core.Lib/router.tree.cpp:49-129 | The segment parser and a character-wise parser agree on every pattern: same tokens, keys, tail and bounds; it throws only on patterns that have no tokens. |
| Pattern.KeysCount | Development Project/Sparcpoint.Core.Lib/router.tree.cpp:131-153 | A pattern that parses binds exactly one key for each wild token. |
| PatternParser.ClosingBrace | Development Project/Sparcpoint.Core.Lib/router.tree.cpp:71-93 | The brace-counting loop finds the brace that closes the first one, or reports that there is none. |
| Pattern.OwnBrace | Development Project/Sparcpoint.Core.Lib/router.tree.cpp:71-93 | That brace is the first place behind which as many braces have been closed as opened, the first one included; there is none if the text never comes to it. |
| PatternParser.SplitKey | Development Project/Sparcpoint.Core.Lib/router.tree.cpp:95-116 | Splits the key at the first colon into name and regexp, and anchors a non-empty regexp at both ends. |
| Pattern.AnchorOnce | Development Project/Sparcpoint.Core.Lib/router.tree.cpp:109-116 | An anchored text begins with `^`, ends with `$`, and is not anchored again; exactly the anchored texts are left alone. |
| PatternParser.PatNextSegment | Development Project/Sparcpoint.Core.Lib/router.tree.cpp:49-129 | The method returns exactly the next segment, or throws exactly where there is none. |
| PatternParser.PatParamKeys | Development Project/Sparcpoint.Core.Lib/router.tree.cpp:131-153 | Throws unless the pattern parses and no key occurs twice, also `*`; otherwise the keys in order, as many as there are wild tokens. |
| Endpoints.SetAllExact | Development Project/Sparcpoint.Core.Lib/router.tree.cpp:475-503 | A registration replaces the endpoint of exactly the registered methods; the entry for unknown gets the handler only, and nothing else changes. |
| Endpoints.MethodBits | Development Project/Sparcpoint.Core.Lib/http.h:23-42 | A valid method is exactly one bit of ALL; what a mount registers for is ALL with the bit of unknown. |
| Endpoints.OneMethod | Development Project/Sparcpoint.Core.Lib/router.tree.cpp:485-502 | A registration for a valid method sets that method's endpoint and changes no other valid method's. |
| Endpoints.AllMethods | Development Project/Sparcpoint.Core.Lib/router.tree.cpp:485-497 | A registration for ALL, or for ALL and unknown, sets every valid method's endpoint and that of ALL. |
| Endpoints.UnknownHandler | Development Project/Sparcpoint.Core.Lib/router.tree.cpp:482-484 | Of the registrations for a method, for ALL and for a mount, only the last changes the entry for unknown, and there only the handler. |
| TrieOrder.OrderedPermutes | Development Project/Sparcpoint.Core.Lib/router.tree.cpp:198-218 | Sorting a group neither loses nor duplicates a node. |
| TrieOrder.OrderedStatic | Development Project/Sparcpoint.Core.Lib/router.tree.cpp:198-218 | A static group comes out ascending by label. |
| TrieOrder.OrderedWild | Development Project/Sparcpoint.Core.Lib/router.tree.cpp:211-217 | A group of wild nodes with a `/`-tailed node ends in one. |
| TrieOrder.TailSortOne | Development Project/Sparcpoint.Core.Lib/router.tree.cpp:211-217 | If only one node of a wild group has the tail `/`, the tail sort swaps it with the last and moves no other. |
| TrieOrder.OrderedDistinct | Development Project/Sparcpoint.Core.Lib/router.tree.cpp:198-218 | Sorting keeps the keys of the group distinct. |
| TrieContents.BranchGood | Development Project/Sparcpoint.Core.Lib/router.tree.cpp:359-438 | The branch built for any text is there exactly if the text parses, keeps the invariant, starts with the first token, and has one leaf, under exactly the text's tokens. |
| TrieContents.SplitKeeps | Development Project/Sparcpoint.Core.Lib/router.tree.cpp:292-301 | Splitting a static node changes what no token sequence finds. |
| TrieContents.InsertRefines | Development Project/Sparcpoint.Core.Lib/router.tree.cpp:223-321 | For every good trie, pattern and token sequence: a registration changes the leaf under exactly the pattern's tokens, as set_endpoint says; a call that throws changes none; the invariant is kept. |
| TrieContents.GoodShape | Development Project/Sparcpoint.Core.Lib/router.tree.cpp:198-321 | The invariant in plain terms at any node: each group holds its own type; static texts are non-empty and free of `{` and `*`, start with their label and, below a parameter, with its tail; static labels strictly ascend; parameter tails and regexp tail-and-text pairs are unique; there is at most one catch-all, and it is childless. |
| Runs.TrieIsTable | Development Project/Sparcpoint.Core.Lib/router.tree.cpp:223-321 | After any sequence of registrations the trie equals a plain table, and its invariant holds. |
| Runs.TableLast | Development Project/Sparcpoint.Core.Lib/router.tree.cpp:475-503 | A valid method's endpoint is that of the last registration that decides it. |
| Runs.DecidesExact | Development Project/Sparcpoint.Core.Lib/router.tree.cpp:475-503 | For a valid method: a registration decides its endpoint if and only if the pattern has these tokens and no key twice, and the registration is for that method or has all bits of ALL. |
| Runs.OtherMethods | Development Project/Sparcpoint.Core.Lib/router.tree.cpp:505-655 | On every trie: if every pattern that the path reaches was registered for other single methods only, the search for a valid method finds nothing. |
| Runs.OrderIrrelevant | Development Project/Sparcpoint.Core.Lib/router.tree.cpp:223-321 | Patterns registered once each make the same contents in whatever order. |
| TrieNode.Node.SetEndpoint | Development Project/Sparcpoint.Core.Lib/router.tree.cpp:475-503 | Stores the endpoint for the registered methods; throws, changing nothing, exactly if the pattern's keys are refused. |
| TrieNode.Node.GetEdge | Development Project/Sparcpoint.Core.Lib/router.tree.cpp:457-473 | The child whose label, tail and, for regexps, text match: the one with the wanted key, or none. |
| TrieNode.Node.ReplaceChild | Development Project/Sparcpoint.Core.Lib/router.tree.cpp:440-455 | Puts the new node in the place of the first child with that label and tail, and gives it both; throws, changing nothing, if there is none. |
| TrieNode.Node.AddChild | Development Project/Sparcpoint.Core.Lib/router.tree.cpp:359-438 | Hangs exactly the branch for the text below the node, sorted into its group; throws, changing nothing, if the text does not parse. |
| TrieNode.Node.SplitEdge | Development Project/Sparcpoint.Core.Lib/router.tree.cpp:292-301 | The node that takes the child's place stands for the split form of that child. |
| TrieNode.Node.InsertRoute | Development Project/Sparcpoint.Core.Lib/router.tree.cpp:223-321 | On the heap, the node stands afterwards for exactly the tree that registration yields, and a null result is exactly a throw; the loop terminates. |
| TrieNode.LongestPrefix | Development Project/Sparcpoint.Core.Lib/router.tree.cpp:155-171 | The length of the longest common prefix. |
| TrieNode.NodesFindEdge | Development Project/Sparcpoint.Core.Lib/router.tree.cpp:173-196 | On strictly ascending labels the binary search stays in bounds and finds the label exactly if it is there. |
| TrieNode.Node.StaticFound | Development Project/Sparcpoint.Core.Lib/router.tree.cpp:173-196 | On every static group of a good trie, the place the binary search finds is the place the linear scan for that label finds. |
| TrieNode.NodesSort | Development Project/Sparcpoint.Core.Lib/router.tree.cpp:198-218 | Drops null entries, sorts by label and applies the tail sort: the group models the ordered group. |
| TrieHits.HitsExact | Development Project/Sparcpoint.Core.Lib/router.tree.cpp:505-655 | For every good trie: a hit is in the enumeration if and only if its node has endpoints and a walk reaches it that uses up the path with its values, the empty string being taken only by the last node of a group off a path that is not empty. |
| TrieHits.HitsSound | Development Project/Sparcpoint.Core.Lib/router.tree.cpp:505-655 | Corollary without the trie's shape: every hit's tokens derive the path with the captured values, the empty string allowed at parameters and regexps. |
| TrieHits.HitsComplete | Development Project/Sparcpoint.Core.Lib/router.tree.cpp:505-655 | Corollary without the trie's shape: every node whose tokens derive the path without the empty fallback is among the hits, whatever else the trie holds. |
| TrieHits.ReachesDerives | Development Project/Sparcpoint.Core.Lib/router.tree.cpp:505-655 | Every walk is a derivation, the empty string allowed at parameters and regexps. |
| TrieHits.DerivesReaches | Development Project/Sparcpoint.Core.Lib/router.tree.cpp:505-655 | Every derivation without the empty fallback is a walk, if the trie has the node. |
| TrieHits.HitsStep | Development Project/Sparcpoint.Core.Lib/router.tree.cpp:505-513 | A search never returns the node it starts from. |
| TrieRank.WalksCompare | Development Project/Sparcpoint.Core.Lib/router.tree.cpp:513-655 | On every good trie, of two different walks that use up the path one comes before the other. |
| TrieRank.HitsSorted | Development Project/Sparcpoint.Core.Lib/router.tree.cpp:513-655 | The enumeration follows the order of walks: no hit comes before an earlier one, unless it repeats a hit met before both. |
| TrieRank.OrderExact | Development Project/Sparcpoint.Core.Lib/router.tree.cpp:513-655 | Of two different hits the one that comes before (by kind of node, capture before fallback, place in the group, then below the shared child) is met first, and conversely. |
| TrieRank.SearchIsFirst | Development Project/Sparcpoint.Core.Lib/router.tree.cpp:505-655 | After any registrations: if some walk reaches a leaf with a handler for the method, the search returns such a walk that comes before every other one. |
| SearchReport.ReportsThrough | Development Project/Sparcpoint.Core.Lib/router.tree.cpp:575-604 | Values pushed before a search that succeeds stay; after one that fails they are dropped and everything is as before. |
| SearchReport.ReportsNext | Development Project/Sparcpoint.Core.Lib/router.tree.cpp:548-605 | Two searches in turn report what one search of both enumerations reports. |
| TrieNode.Node.SearchStatic | Development Project/Sparcpoint.Core.Lib/router.tree.cpp:529-537 | The static group's turn reports its hits. |
| TrieNode.Node.SearchWild | Development Project/Sparcpoint.Core.Lib/router.tree.cpp:538-608 | A group of parameters or regexps reports the hits of each node in turn, then of the last with an empty value. |
| TrieNode.Node.SearchCatchAll | Development Project/Sparcpoint.Core.Lib/router.tree.cpp:610-651 | A catch-all reports one hit that takes the whole path, also an empty one. |
| TrieNode.Node.FindRouteHelper | Development Project/Sparcpoint.Core.Lib/router.tree.cpp:505-655 | Returns the first hit that serves the method (`TrieRank.OrderExact` says which that is), with its values and keys; a failure restores both, and the hint is set exactly if an earlier hit did not serve the method. Terminates although the fallback does not shorten the path. |
| TrieNode.Node.FindRoute | Development Project/Sparcpoint.Core.Lib/router.tree.cpp:323-357 | Starts from empty route parameters; a find appends them to the URL parameters and records the pattern, a failure leaves both alone. |
| Runs.MatchRoundTrip | Development Project/Sparcpoint.Core.Lib/router.tree.cpp:323-357 | What a search finds was registered last for that method; filling its pattern with the captured values rebuilds the path, and each value is fit for its place. |
| Runs.SearchComplete | Development Project/Sparcpoint.Core.Lib/router.tree.cpp:505-655 | If the last registration for a method has a handler and its pattern derives the path, the search finds a handler, whatever else is registered. |
| Filling.StopExact | Development Project/Sparcpoint.Core.Lib/router.tree.cpp:548-560 | A parameter stops at p if and only if its tail does not occur before p and is at p, or p is the end of the path and the tail is `/`. |
| Filling.DerivesExact | Development Project/Sparcpoint.Core.Lib/router.tree.cpp:543-580 | A pattern derives a path with given values, without the empty fallback, if and only if the filled tokens are the path and every value fits and ends where its token does. |
| Filling.SearchFinds | Development Project/Sparcpoint.Core.Lib/router.tree.cpp:505-655 | On a registered pattern filled with fitting values the search finds a handler for the method, and the pattern's node is a hit with these values, whatever else is registered. |
| Filling.EndsInParameter | Development Project/Sparcpoint.Core.Lib/router.tree.cpp:88-116 | A parameter at the end of a pattern has the tail `/`. |
| Filling.LastParameterFound | Development Project/Sparcpoint.Core.Lib/router.tree.cpp:551-560 | Literal text and a parameter at the end: any rest of the path that is not empty and has no `/` is found. |
| Runs.PatternTails | Development Project/Sparcpoint.Core.Lib/router.tree.cpp:95-100 | In a pattern that parses, parameters are followed by their tails unless `{` or `*` follows one directly. |
| Runs.FallbackExact | Development Project/Sparcpoint.Core.Lib/router.tree.cpp:560-608 | Where tails follow, pattern and path alone decide: a derivation needs the fallback if and only if some regexp stands right before its tail, and every regexp accepts its value if and only if none that rejects the empty string does. |
| Runs.HitExact | Development Project/Sparcpoint.Core.Lib/router.tree.cpp:505-655 | Every hit is a table leaf that a walk reaches; if its parameters are followed by their tails, its derivation is strict if and only if the path brings no regexp before its tail, and its regexps accept their values if and only if none that rejects the empty string is brought there. |
| Runs.SearchExact | Development Project/Sparcpoint.Core.Lib/router.tree.cpp:505-655 | After any registrations the search for a valid method succeeds if and only if some walk reaches a leaf to which the last registration gave a handler for the method. |
| Runs.SearchStraight | Development Project/Sparcpoint.Core.Lib/router.tree.cpp:505-655 | On a path on which no registered pattern needs the fallback: the search succeeds exactly if some pattern with a handler for the method derives the path, with no reference to the trie. |
| Runs.NoRegexpNoFallback | Development Project/Sparcpoint.Core.Lib/router.tree.cpp:560-608 | Patterns without regexps need the fallback on no path. |
| Runs.HintExact | Development Project/Sparcpoint.Core.Lib/router.tree.cpp:579-592 | After any registrations and a failed search the hint is set if and only if it was before, or some walk reaches a leaf with endpoints but no handler for the method. |
| Runs.HintStraight | Development Project/Sparcpoint.Core.Lib/router.tree.cpp:579-592 | On a path on which no registered pattern needs the fallback: if and only if it was before, or a registered pattern without a handler for the method derives the path. |
| Runs.LiteralWins | Development Project/Sparcpoint.Core.Lib/router.tree.cpp:505-537 | A literal registration of the path itself beats every other, whatever the trie holds. |
| Runs.StaticSearch | Development Project/Sparcpoint.Core.Lib/router.tree.cpp:505-655 | With literal patterns only, the search is a table lookup of the path. |
| Fallback.RegexpMayBeEmpty | Development Project/Sparcpoint.Core.Lib/router.tree.cpp:607-608 | A concrete route and path for which a regexp parameter is bound to the empty string whatever its regexp accepts; if it rejects the empty string, the input meets the condition of HitExact. |
| TrieLookup.FindPatternGoes | Development Project/Sparcpoint.Core.Lib/router.tree.cpp:693-738 | On every good trie and for every text, find_pattern is true if and only if the walk arrives that takes the middle of the regexps, or else of the parameters, at a `{`, and goes on after the next `}`. |
| TrieLookup.WrongTail | Development Project/Sparcpoint.Core.Lib/router.tree.cpp:718-734 | Wherever the text after the first `}` does not begin with the tail of the node taken, find_pattern is false. |
| TrieLookup.FindPatternAims | Development Project/Sparcpoint.Core.Lib/router.tree.cpp:693-738 | Corollary for patterns whose parameters are closed by the first `}` after them: the same walk told from the tokens. |
| TrieLookup.MiddleExact | Development Project/Sparcpoint.Core.Lib/router.tree.cpp:657-738 | Where the wanted nodes are the ones that walk takes, it arrives if and only if the trie has the node. |
| TrieLookup.FindPatternExact | Development Project/Sparcpoint.Core.Lib/router.tree.cpp:693-738 | Corollary for literal text followed by `*`: find_pattern answers exactly whether the trie has that node. |
| TrieNode.Node.FindEdge | Development Project/Sparcpoint.Core.Lib/router.tree.cpp:657-687 | The binary search over a group stays in bounds: the labelled child of a static group, the middle of a group of parameters, the first catch-all. |
| TrieNode.Node.FindPattern | Development Project/Sparcpoint.Core.Lib/router.tree.cpp:693-738 | On the heap, the answer of the lookup function. |
| TrieCover.WalksAreRegistered | Development Project/Sparcpoint.Core.Lib/router.tree.cpp:223-321 | After any registrations every walk in the trie, even into the middle of an edge, is the beginning of the tokens of some registered pattern. |
| TrieCover.AloneMiddle | Development Project/Sparcpoint.Core.Lib/router.tree.cpp:657-687 | If no registered pattern has another parameter or regexp where this one has one, the lookup takes the wanted nodes, in whatever order the registrations came. |
| Runs.MountedIsFound | Development Project/Sparcpoint.Core.Lib/router.tree.cpp:693-738 | After any further registrations the node of a registered pattern is there; find_pattern finds it if and only if the walk over its text arrives, and so, if its parameters are closed by the first `}` after them, whenever the wanted nodes are the ones taken. |
| Context.InnermostWins | Development Project/Sparcpoint.Core.Lib/router.context.cpp:32-48 | With as many values as keys, the inner router's binding of a name hides the outer one's. |
| Context.RoutingContext.GetUrlParam | Development Project/Sparcpoint.Core.Lib/router.context.cpp:32-48 | The value of the last occurrence of the key that has a value; empty if there is none. |
| Context.UrlParamExact | Development Project/Sparcpoint.Core.Lib/router.context.cpp:32-48 | That is the last position that has the key and a value; a key without one gives the empty string. |
| Middleware.ChainHelper | Development Project/Sparcpoint.Core.Lib/router.cpp:19-33 | Wraps the endpoint from the last middleware to the first. |
| Middleware.MakeHandler | Development Project/Sparcpoint.Core.Lib/router.cpp:92-101 | The chain handler remembers its chain, endpoint and middlewares. |
| Middleware.ChainLayers | Development Project/Sparcpoint.Core.Lib/router.cpp:19-33 | A chain is passed through in the order of its list and ends where its endpoint does. |
| Middleware.ChainAppend | Development Project/Sparcpoint.Core.Lib/router.cpp:19-33 | Chaining a concatenated list is chaining its parts in turn. |
| MuxSteps.FrozenForever | Development Project/Sparcpoint.Core.Lib/router.mux.cpp:79-143 | From any point of any run: a router whose handler is set never changes again, stacks only grow before that, and registrations are only added. |
| MuxSteps.HandlerIsChain | Development Project/Sparcpoint.Core.Lib/router.mux.cpp:533-535 | At every point of every run a router's handler is its dispatcher inside exactly its present middlewares. |
| MuxSteps.ServedThrough | Development Project/Sparcpoint.Core.Lib/router.mux.cpp:443-455 | Whatever a search on the shared trie finds was registered with a handler that the request reaches through the router's middlewares, then those of the registering inline router, in order. |
| MuxSteps.UseExact | Development Project/Sparcpoint.Core.Lib/router.mux.cpp:79-101 | use succeeds if and only if the handler is not set; it then adds its middlewares behind the others, and changes nothing else. |
| MuxSteps.ThroughInline | Development Project/Sparcpoint.Core.Lib/router.mux.cpp:113-143 | A handler registered through an inline router is reached through the first router's stack, the stack of the inline router it was made from, the additions, and the handler's own, in that order. |
| Remount.TakenExact | Development Project/Sparcpoint.Core.Lib/router.mux.cpp:192-199 | For every pattern, its path is taken if and only if the walk of find_pattern arrives for the pattern with `*` or with `/*`. |
| Remount.MountExact | Development Project/Sparcpoint.Core.Lib/router.mux.cpp:185-248 | A mount succeeds if and only if every pattern it registers begins with `/` and is accepted, and the path is not taken; on a taken path it changes nothing. |
| Remount.ThreeRegistrations | Development Project/Sparcpoint.Core.Lib/router.mux.cpp:232-247 | A successful mount at a pattern without `/` at its end makes exactly three registrations, of the pattern, of it with `/`, and of the wildcard, which records the router; their handler enters it through the inline stack. |
| Remount.StopsAtThrow | Development Project/Sparcpoint.Core.Lib/router.mux.cpp:232-247 | The registrations of a mount stop at the first pattern that throws, and those made before stay. |
| Remount.SecondMount | Development Project/Sparcpoint.Core.Lib/router.mux.cpp:181-199 | Once a pattern has been mounted, a mount of it on any trie succeeds if and only if neither walk arrives there; otherwise it throws and changes nothing. |
| Remount.DuplicateMount | Development Project/Sparcpoint.Core.Lib/router.mux.cpp:181-199 | On every run after a successful mount, a later mount of the same pattern through any router of the trie throws and changes nothing, if the wildcard's parameters are closed by the first `}` after them and either the nodes wanted for it are the ones find_pattern takes, or no registered pattern has another parameter or regexp where it has one. |
| Remount.DuplicateTextMount | Development Project/Sparcpoint.Core.Lib/router.mux.cpp:192-199 | For literal text that is so on every run. |
| Counterexamples.MountedTwice | Development Project/Sparcpoint.Core.Lib/router.mux.cpp:181-199 | A concrete run on which the same pattern, with a parameter, is mounted twice beside a regexp. |
| Counterexamples.FreshMountedTwice | Development Project/Sparcpoint.Core.Lib/router.mux.cpp:181-199 | On a fresh router a pattern with braces inside a parameter is mounted twice, with nothing registered in between. |
| Muxes.Mux.Use | Development Project/Sparcpoint.Core.Lib/router.mux.cpp:79-101 | Extends the stack, or throws, changing nothing, once the handler is set. |
| Muxes.Mux.With | Development Project/Sparcpoint.Core.Lib/router.mux.cpp:113-143 | Freezes a router's own stack and makes an inline router on the same trie, with the stack of an inline parent and the additions. |
| Muxes.Mux.HandleImpl | Development Project/Sparcpoint.Core.Lib/router.mux.cpp:430-456 | Refuses patterns that do not begin with `/`; otherwise freezes the stack and registers the handler, inside the inline stack if there is one. |
| Muxes.Mux.Mount | Development Project/Sparcpoint.Core.Lib/router.mux.cpp:185-248 | Refuses taken paths; otherwise makes the registrations in turn, stopping at the first that throws, and records the router at the wildcard's node. |
| Muxes.Mux.EnterMount | Development Project/Sparcpoint.Core.Lib/router.mux.cpp:219-227 | Hands on what the wildcard took as the route path and resets its URL parameter, changing no other. |
| Muxes.Mux.FindRoute | Development Project/Sparcpoint.Core.Lib/router.mux.cpp:486-488 | One router's search finds what the value-level search finds, and leads only to routers mounted by registrations. |
| Muxes.Mux.RouteHttp | Development Project/Sparcpoint.Core.Lib/router.mux.cpp:458-502 | Path and method are taken from the context or else from the request; the answer, the URL parameters and the recorded patterns are those of the site model, and the method is recorded. |
| Muxes.Mux.HandleRequest | Development Project/Sparcpoint.Core.Lib/router.mux.cpp:45-71 | A router without a handler answers not found; otherwise the dispatcher answers, through any depth of mounts. |
| Muxes.Mux.Match | Development Project/Sparcpoint.Core.Lib/router.mux.cpp:260-278 | The match over mounted routers is that of the site model, what it leaves in the routing context included, and terminates on acyclic mounts. |
| Site.MatchExact | Development Project/Sparcpoint.Core.Lib/router.mux.cpp:260-278 | Of the requests that dispatch serves, over any nesting, match refuses exactly those that come to a recorded router which the handler beside it does not enter, and which refuses the rest. |
| Site.IntactNeverStrays | Development Project/Sparcpoint.Core.Lib/router.mux.cpp:260-278 | Where no mount has been overwritten, no request does. |
| Site.MatchCoversDispatch | Development Project/Sparcpoint.Core.Lib/router.mux.cpp:260-278 | Corollary: there match accepts every request that dispatch serves. |
| Hops.MatchEnters | Development Project/Sparcpoint.Core.Lib/router.mux.cpp:260-278 | If the leaf found records a router, match is that router's on the path handed on; otherwise it is true. |
| Hops.MatchNeedsWalk | Development Project/Sparcpoint.Core.Lib/router.mux.cpp:260-278 | The search finds something if and only if a walk reaches a leaf with a handler for the method; without one match is false, and dispatch answers not found. |
| Hops.MatchDispatch | Development Project/Sparcpoint.Core.Lib/router.mux.cpp:260-278 | With intact mounts, match is true exactly for the requests that dispatch does not answer with not found and those it overlooks, which dispatch does answer so. |
| Hops.MatchIffDispatch | Development Project/Sparcpoint.Core.Lib/router.mux.cpp:260-278 | So match and dispatch agree on a request if and only if it is not overlooked. |
| Hops.NothingOverlooked | Development Project/Sparcpoint.Core.Lib/router.mux.cpp:232-247 | If every registration that enters a router records it, as mounts at patterns ending in `/` do, no request is overlooked. |
| Site.NotedKeys | Development Project/Sparcpoint.Core.Lib/router.mux.cpp:260-278 | match, too, keeps as many values as keys, and as keys those of the matched patterns, in order. |
| Site.StillIntact | Development Project/Sparcpoint.Core.Lib/router.mux.cpp:232-247 | Mounts are intact if no other registration followed one on the same tokens. |
| Counterexamples.MatchRefusesServed | Development Project/Sparcpoint.Core.Lib/router.mux.cpp:260-278 | A concrete site on which a mounted wildcard was overwritten: dispatch serves a request that match refuses, and the request strays. |
| Counterexamples.Reachable | Development Project/Sparcpoint.Core.Lib/router.mux.cpp:185-248 | The registrations of that site are those of a run: a mount, then a handler for the same wildcard. |
| Counterexamples.OverwrittenAndServed | Development Project/Sparcpoint.Core.Lib/router.mux.cpp:260-278 | A site with the same overwritten mount on which match accepts the request, so that intact mounts are not necessary. |
| Counterexamples.MatchOverlooks | Development Project/Sparcpoint.Core.Lib/router.mux.cpp:232-247 | An empty router mounted at `/a`: match accepts `/a`, and dispatch answers it with not found, although mounts are intact. |
| Site.FamilyEnters | Development Project/Sparcpoint.Core.Lib/router.mux.cpp:232-247 | On every run, a registration that records a router has a handler, for every method, that enters it. |
| Site.RecordedLast | Development Project/Sparcpoint.Core.Lib/router.mux.cpp:243-247 | The router recorded at a node is that of the last registration there that records one. |
| Site.WildcardReset | Development Project/Sparcpoint.Core.Lib/router.mux.cpp:222-227 | Entering a mounted router empties the wildcard that is bound last, and changes no other name's value. |
| Site.InnermostBinds | Development Project/Sparcpoint.Core.Lib/router.context.cpp:32-48 | Through any stack of mounts, a name other than `*` has the value of the innermost router on the way that binds it, or the one it had before. |
| Site.ParamsAligned | Development Project/Sparcpoint.Core.Lib/router.mux.cpp:222-227 | Through any stack of mounts there are as many values as keys, and the innermost router's bindings win. |
| Site.TrailKeys | Development Project/Sparcpoint.Core.Lib/router.tree.cpp:339-354 | Through any stack of mounts the URL parameter keys are exactly the keys of the recorded patterns, in order. |
| Site.HopConserves | Development Project/Sparcpoint.Core.Lib/router.mux.cpp:550-562 | One hop: the filled pattern without its wildcard, followed by the path handed on, is the path. |
| Site.PathConserved | Development Project/Sparcpoint.Core.Lib/router.mux.cpp:214-230 | By induction over any depth: the parts taken by the routers on the way and the rest make up the path. |
| Hops.DispatchEnters | Development Project/Sparcpoint.Core.Lib/router.mux.cpp:550-562 | A mounted router is asked for `/` and what the wildcard took, if the pattern found binds `*` last, and for `/` if it does not. |
| Hops.DispatchEnds | Development Project/Sparcpoint.Core.Lib/router.mux.cpp:486-492 | A handler found that enters no router is the one served. |
| Hops.ServedIsRegistered | Development Project/Sparcpoint.Core.Lib/router.mux.cpp:458-502 | Through any depth of mounts, what is served is a handler that some router has registered. |
| Hops.MountedPath | Development Project/Sparcpoint.Core.Lib/router.mux.cpp:232-240 | After a mount at literal text, on top of any registrations, requests for that text, with or without a `/`, are answered as the mounted router answers its root path. |
| Hops.FreshMount | Development Project/Sparcpoint.Core.Lib/router.mux.cpp:214-247 | For every path: a router with nothing but a mount at literal text asks the mounted router for `/` at the mounted path and for the rest from its `/` on below it, and answers not found elsewhere; match accepts the mounted path and follows the mounted router below it. |
| Hops.AfterMount | Development Project/Sparcpoint.Core.Lib/router.mux.cpp:185-248 | That is what a successful mount on a new router makes of it. |
| Site.FoundBelow | Development Project/Sparcpoint.Core.Lib/router.mux.cpp:232-247 | A search leads only to routers that the registrations mount. |
| StrUtils.Collect | Development Project/Sparcpoint.Core.Lib/StrUtils.h:87-94 | The first pass finds the leftmost places that do not overlap. |
| StrUtils.ReplaceCopy | Development Project/Sparcpoint.Core.Lib/StrUtils.h:57-150 | Through all early exits: the first n occurrences from the left, or all for negative n, are replaced. |
| StrUtils.ReplaceFirst | Development Project/Sparcpoint.Core.Lib/StrUtils.h:57-150 | Replacing the first n occurrences is joining the parts between occurrences with the new text at the first n places and with the old text at the others. |
| StrUtils.ReplaceLength | Development Project/Sparcpoint.Core.Lib/StrUtils.h:97-105 | On all inputs, the length changes by the difference of the two texts for each of min(n, occurrences) replacements. |
| StrUtils.Split | Development Project/Sparcpoint.Core.Lib/StrUtils.h:184-247 | Through all early exits: the parts between delimiters, with or without empty ones. |
| StrUtils.SplitJoin | Development Project/Sparcpoint.Core.Lib/StrUtils.h:184-247 | Joining a full split with the delimiter restores the string, on all inputs. |
| StrUtils.SplitDropsEmpty | Development Project/Sparcpoint.Core.Lib/StrUtils.h:230-244 | Leaving out empty parts is filtering the full split. |
| StrUtils.SplitClear | Development Project/Sparcpoint.Core.Lib/StrUtils.h:192-244 | On all inputs, no part contains the delimiter if and only if there is no part, or the delimiter is not empty and not the string itself. |
| StrUtils.ReplaceIsJoin | Development Project/Sparcpoint.Core.Lib/StrUtils.h:57-150 | Replacing all is joining the split with the new text, if and only if the string is not the pattern (or nothing changes). |
| HttpHeader.GenCanonicalKey | Development Project/Sparcpoint.Core.Lib/http.cpp:218-250 | The in-place loop computes the canonical form; a key with a character outside tokens is left alone. |
| HttpHeader.TokenChars | Development Project/Sparcpoint.Core.Lib/http.cpp:14-155 | The table of token characters holds the visible ASCII characters without the delimiters. |
| HttpHeader.CanonicalAt | Development Project/Sparcpoint.Core.Lib/http.cpp:230-247 | In a canonical key no small letter stands first or behind a dash, no capital elsewhere, and nothing but case differs from the key. |
| HttpHeader.CasedAt | Development Project/Sparcpoint.Core.Lib/http.cpp:230-247 | Letter by letter: upper case first and after a dash, lower case elsewhere. |
| HttpHeader.CanonicalSame | Development Project/Sparcpoint.Core.Lib/http.cpp:218-250 | Two keys share a canonical form if and only if they are the same text, or tokens equal up to ASCII case. |
| HttpHeader.CanonicalIdempotent | Development Project/Sparcpoint.Core.Lib/http.cpp:218-250 | A canonical key is its own canonical form. |
| HttpHeader.HeaderIsMultimap | Development Project/Sparcpoint.Core.Lib/http.cpp:252-285 | After any changes under any spellings, a name's values are those added since it was last set, inclusive, or deleted, in order. |
| HttpHeader.Header.Add | Development Project/Sparcpoint.Core.Lib/http.cpp:252-254 | Appends to the values of the name. |
| HttpHeader.Header.Set | Development Project/Sparcpoint.Core.Lib/http.cpp:260-262 | Makes the value the name's only one. |
| HttpHeader.Header.Del | Development Project/Sparcpoint.Core.Lib/http.cpp:256-258 | Removes the name. |
| HttpHeader.Header.Get | Development Project/Sparcpoint.Core.Lib/http.cpp:264-274 | The first value of the name, or the empty string. |
| HttpHeader.Header.GetAllValues | Development Project/Sparcpoint.Core.Lib/http.cpp:276-285 | All values of the name in order. |

## Left out

- Regexp matching: `Matcher` is an arbitrary predicate on regexp text and string; a regexp text that `std::regex` rejects is not modelled as an error.
- Order among equal labels: `std::sort` is not stable and all parameters of a group share a label; the model sorts by stable insertion, and nothing is claimed about which of two such nodes is tried first, except that a `/`-tailed one is last.
- Signed characters: labels are compared as Dafny characters; any total order used by both the sort and the binary search gives the same results.
- Helper methods: `insert_route`, `add_child`, `find_route_helper` and `mount` are split into several methods, one for each branch or loop turn, so that each proof stays small.
- Shared endpoints: an endpoint is a value in the node's table; that two copies of a table share endpoint objects in the source is not captured.
- Exception messages, and the order of allocation of nodes.
- TrieHits.HitsSound: and the next line's lemma are corollaries that do not mention the trie's shape; the exact statement is `TrieHits.HitsExact`.
- TrieHits.HitsComplete: covers derivations without the empty fallback only; see the line above.
- Runs.HitExact: gives the conditions on pattern and path for routes whose parameters are followed by their tails; a parameter directly followed by `{` or `*` can be passed in two ways on one path, and has only the statement about walks.
- TrieLookup.FindPatternAims: and `TrieLookup.FindPatternExact` are corollaries that speak of tokens or of literal text; the statement for every text, braces inside parameters included, is `TrieLookup.FindPatternGoes`.
- TrieLookup.FindPatternExact: see the line above.
- Remount.DuplicateMount: gives conditions that suffice; the exact one, for every pattern, is `Remount.SecondMount`. With braces inside a parameter a second mount may succeed (`Counterexamples.FreshMountedTwice`).
- Muxes.Mux.With: does not copy the not-found and method-not-allowed handlers to the inline router, which the model does not have.
- Muxes.Mux.Mount: does not pass those two handlers on to the mounted router.
- Muxes.Mux.RouteHttp: answers `NotFound` for both of them, and does not say that the source runs the second after the first.
- Muxes.Mux.HandleRequest: assumes middlewares that call the next handler once and do not change the path, and a routing context that exists already; a registered handler that is itself a router's dispatcher is answered as it is, not entered.
- Not-found and method-not-allowed handlers: every such answer is `NotFound`; which of the two handlers runs, and how `mount` passes them on to a mounted router, is not modelled.
- `route`, `group` and the registration shorthands for single methods: they call `mount`, `with` and `handle_impl` with fixed arguments.
- Route listing (`get_routes`, `walk`, `update_subroutes`) and `join_route_patterns`.
- `Method` parsing, `Uri`, `StatusCode`, the `RouteParams` class's own accessors, iteration over headers.
- I/O, JSON, configuration, logging, the product handlers and the SQL files.
