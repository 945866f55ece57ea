/** MCP tool names and the tool cache keyed by them (pkg/mcp/client.go). */
module ToolNames {

  const MCP_PREFIX := "mcp__"
  const SEPARATOR := "__"

  function ServerPrefix(server: string): string {
    MCP_PREFIX + server + SEPARATOR
  }

  function FullName(server: string, tool: string): string {
    ServerPrefix(server) + tool
  }

  predicate SeparatorAt(s: string, i: int) {
    0 <= i < |s| - 1 && s[i] == '_' && s[i + 1] == '_'
  }

  /** Position of the first separator, or -1. */
  function FirstSeparator(s: string): (r: int)
    ensures r == -1 || SeparatorAt(s, r)
    ensures forall j | SeparatorAt(s, j) :: 0 <= r <= j
  {
    if |s| < 2 then -1
    else if s[0] == '_' && s[1] == '_' then 0
    else
      var r := FirstSeparator(s[1..]);
      assert forall j | SeparatorAt(s, j) :: j > 0 && SeparatorAt(s[1..], j - 1);
      if r == -1 then -1 else r + 1
  }

  datatype Parsed = Parsed(server: string, tool: string) | Invalid

  function Parse(fullName: string): Parsed {
    if !(MCP_PREFIX <= fullName) then Invalid else
    var rest := fullName[5..];
    var i := FirstSeparator(rest);
    if i == -1 then Invalid else Parsed(rest[..i], rest[i + 2..])
  }

  /** A server name without "__" and without a trailing "_". */
  predicate WellFormed(server: string) {
    (forall i | 0 <= i < |server| :: !SeparatorAt(server, i)) && (server != "" ==> server[|server| - 1] != '_')
  }

  lemma SeparatorsOfRest(server: string, tool: string)
    ensures var rest := server + SEPARATOR + tool;
            && FullName(server, tool)[5..] == rest && MCP_PREFIX <= FullName(server, tool)
            && SeparatorAt(rest, |server|)
            && rest[..|server|] == server && rest[|server| + 2..] == tool
            && (WellFormed(server) <==> forall j | 0 <= j < |server| :: !SeparatorAt(rest, j))
  {
    var rest := server + SEPARATOR + tool;
    assert forall j | 0 <= j < |server| :: rest[j] == server[j];
    if !WellFormed(server) {
      if i :| SeparatorAt(server, i) {
        assert SeparatorAt(rest, i);
      } else {
        assert SeparatorAt(rest, |server| - 1);
      }
    }
    if j :| 0 <= j < |server| && SeparatorAt(rest, j) {
      assert j < |server| - 1 ==> SeparatorAt(server, j);
    }
  }

  /** Parsing inverts printing for every tool name exactly when the server name has no "__" and no
      trailing "_". */
  lemma RoundTripIff(server: string, tool: string)
    ensures Parse(FullName(server, tool)) == Parsed(server, tool) <==> WellFormed(server)
  {
    var rest := server + SEPARATOR + tool;
    SeparatorsOfRest(server, tool);
    var i := FirstSeparator(rest);
    if i == |server| {
      assert forall j | 0 <= j < |server| :: !SeparatorAt(rest, j);
    } else {
      assert |rest[..i]| == i;
    }
  }

  /** A parsed name prints back to itself, and its server part is always well formed. */
  lemma PrintInvertsParse(fullName: string)
    requires Parse(fullName).Parsed?
    ensures var p := Parse(fullName); FullName(p.server, p.tool) == fullName && WellFormed(p.server)
  {
    var rest := fullName[5..];
    var i := FirstSeparator(rest);
    var p := Parse(fullName);
    assert rest == p.server + SEPARATOR + p.tool;
    assert fullName == MCP_PREFIX + rest;
    SeparatorsOfRest(p.server, p.tool);
  }

  /** A trailing underscore of the server name moves to the tool name. */
  lemma TrailingUnderscoreMisparsed(server: string, tool: string)
    requires WellFormed(server)
    ensures Parse(FullName(server + "_", tool)) == Parsed(server, "_" + tool)
  {
    hide Parse;
    assert FullName(server + "_", tool) == FullName(server, "_" + tool);
    RoundTripIff(server, "_" + tool);
  }

  lemma PrintInjective(s: string, t: string, s': string, t': string)
    requires WellFormed(s) && WellFormed(s') && FullName(s, t) == FullName(s', t')
    ensures s == s' && t == t'
  {
    RoundTripIff(s, t);
    RoundTripIff(s', t');
  }

  // ---- Prefix matching ----

  /** Matching a server prefix identifies the server, for well-formed server names. */
  lemma PrefixIdentifiesServer(server: string, s: string, t: string)
    requires WellFormed(server) && WellFormed(s)
    ensures ServerPrefix(server) <= FullName(s, t) <==> server == s
  {
    if ServerPrefix(server) <= FullName(s, t) {
      var tail := FullName(s, t)[|ServerPrefix(server)|..];
      assert FullName(s, t) == FullName(server, tail);
      PrintInjective(s, t, server, tail);
    }
  }

  /** For arbitrary names, clearing one server can hit some tool of another exactly when one of the
      two names followed by "__" is a prefix of the other. */
  lemma ClearCollidesIff(server: string, s: string)
    ensures (exists t :: ServerPrefix(server) <= FullName(s, t))
            <==> server + SEPARATOR <= s + SEPARATOR || s + SEPARATOR <= server + SEPARATOR
  {
    var a, b := server + SEPARATOR, s + SEPARATOR;
    assert ServerPrefix(server) == MCP_PREFIX + a;
    assert ServerPrefix(s) == MCP_PREFIX + b;
    if t :| ServerPrefix(server) <= FullName(s, t) {
      forall k | 0 <= k < |a| && k < |b| ensures a[k] == b[k] {
        assert a[k] == ServerPrefix(server)[k + 5] == FullName(s, t)[k + 5] == b[k];
      }
    }
    if a <= b {
      assert ServerPrefix(server) <= FullName(s, "");
    } else if b <= a {
      var t := a[|b|..];
      assert FullName(s, t) == ServerPrefix(server);
    }
  }

  // ---- The tool cache ----

  datatype Tool = Tool(name: string, description: string)

  datatype DiscoveredTool = DiscoveredTool(tool: Tool, serverName: string, fullName: string)

  type Cache = map<string, DiscoveredTool>

  function AddTool(cache: Cache, server: string, tool: Tool): Cache {
    var name := FullName(server, tool.name);
    cache[name := DiscoveredTool(tool, server, name)]
  }

  function AfterCache(cache: Cache, server: string, tools: seq<Tool>): Cache {
    if tools == [] then cache
    else AddTool(AfterCache(cache, server, tools[..|tools| - 1]), server, tools[|tools| - 1])
  }

  function AfterClear(cache: Cache, server: string): Cache {
    map k | k in cache && !(ServerPrefix(server) <= k) :: cache[k]
  }

  /** What a server offers on its own: its tools by plain name. */
  type Offer = map<string, Tool>

  function OfferTools(offer: Offer, tools: seq<Tool>): Offer {
    if tools == [] then offer
    else OfferTools(offer, tools[..|tools| - 1])[tools[|tools| - 1].name := tools[|tools| - 1]]
  }

  datatype Op = Cached(server: string, tools: seq<Tool>) | Cleared(server: string)

  function Run(ops: seq<Op>): Cache {
    if ops == [] then map[] else
    var before := Run(ops[..|ops| - 1]);
    match ops[|ops| - 1]
    case Cached(server, tools) => AfterCache(before, server, tools)
    case Cleared(server) => AfterClear(before, server)
  }

  /** The offer of one server, computed from its own operations alone. */
  function OfferOf(ops: seq<Op>, server: string): Offer {
    if ops == [] then map[] else
    var before := OfferOf(ops[..|ops| - 1], server);
    var op := ops[|ops| - 1];
    if op.server != server then before
    else if op.Cleared? then map[]
    else OfferTools(before, op.tools)
  }

  predicate AllWellFormed(ops: seq<Op>) {
    forall i | 0 <= i < |ops| :: WellFormed(ops[i].server)
  }

  /** The cache holds the tool of that name under its full name exactly when the server offers it. */
  predicate ShowsAt(cache: Cache, server: string, offer: Offer, name: string) {
    && (FullName(server, name) in cache <==> name in offer)
    && (name in offer ==> cache[FullName(server, name)] == DiscoveredTool(offer[name], server, FullName(server, name)))
  }

  /** The cache shows exactly the server's own offer under its full names. */
  ghost predicate Shows(cache: Cache, server: string, offer: Offer) {
    forall name :: ShowsAt(cache, server, offer, name)
  }

  lemma AddToolShowsAt(cache: Cache, s: string, tool: Tool, server: string, offer: Offer, name: string)
    requires WellFormed(s) && WellFormed(server) && ShowsAt(cache, server, offer, name)
    ensures ShowsAt(AddTool(cache, s, tool), server, if s == server then offer[tool.name := tool] else offer, name)
  {
    if FullName(server, name) == FullName(s, tool.name) {
      PrintInjective(server, name, s, tool.name);
    }
    hide FullName; hide WellFormed;
  }

  lemma AddToolShows(cache: Cache, s: string, tool: Tool, server: string, offer: Offer)
    requires WellFormed(s) && WellFormed(server) && Shows(cache, server, offer)
    ensures Shows(AddTool(cache, s, tool), server, if s == server then offer[tool.name := tool] else offer)
  {
    hide ShowsAt; hide AddTool; hide WellFormed;
    var after, offer' := AddTool(cache, s, tool), if s == server then offer[tool.name := tool] else offer;
    forall name ensures ShowsAt(after, server, offer', name) {
      AddToolShowsAt(cache, s, tool, server, offer, name);
    }
  }

  lemma {:induction false} CacheShows(cache: Cache, s: string, tools: seq<Tool>, server: string, offer: Offer)
    requires WellFormed(s) && WellFormed(server) && Shows(cache, server, offer)
    ensures Shows(AfterCache(cache, s, tools), server, if s == server then OfferTools(offer, tools) else offer)
  {
    if tools != [] {
      var front, tool := tools[..|tools| - 1], tools[|tools| - 1];
      CacheShows(cache, s, front, server, offer);
      AddToolShows(AfterCache(cache, s, front), s, tool, server, if s == server then OfferTools(offer, front) else offer);
    }
  }

  lemma ClearShowsAt(cache: Cache, s: string, server: string, offer: Offer, name: string)
    requires WellFormed(s) && WellFormed(server) && ShowsAt(cache, server, offer, name)
    ensures ShowsAt(AfterClear(cache, s), server, if s == server then map[] else offer, name)
  {
    PrefixIdentifiesServer(s, server, name);
    hide FullName; hide ServerPrefix; hide WellFormed;
  }

  lemma ClearShows(cache: Cache, s: string, server: string, offer: Offer)
    requires WellFormed(s) && WellFormed(server) && Shows(cache, server, offer)
    ensures Shows(AfterClear(cache, s), server, if s == server then map[] else offer)
  {
    hide ShowsAt; hide AfterClear; hide WellFormed;
    var after, offer' := AfterClear(cache, s), if s == server then map[] else offer;
    forall name ensures ShowsAt(after, server, offer', name) {
      ClearShowsAt(cache, s, server, offer, name);
    }
  }

  /** After any history of caching and clearing well-formed servers, the cache shows for each server
      exactly what that server's own history leaves: servers never disturb each other. */
  lemma {:induction false} ServersIndependent(ops: seq<Op>, server: string)
    requires AllWellFormed(ops) && WellFormed(server)
    ensures Shows(Run(ops), server, OfferOf(ops, server))
  {
    if ops != [] {
      var front, op := ops[..|ops| - 1], ops[|ops| - 1];
      ServersIndependent(front, server);
      match op
      case Cached(s, tools) => CacheShows(Run(front), s, tools, server, OfferOf(front, server));
      case Cleared(s) => ClearShows(Run(front), s, server, OfferOf(front, server));
    }
  }

  /** Every cache entry is filed under the printed name of its own server and tool. */
  predicate Consistent(cache: Cache) {
    forall k | k in cache :: k == cache[k].fullName == FullName(cache[k].serverName, cache[k].tool.name)
                             && WellFormed(cache[k].serverName)
  }

  lemma AddToolConsistent(cache: Cache, server: string, tool: Tool)
    requires Consistent(cache) && WellFormed(server)
    ensures Consistent(AddTool(cache, server, tool))
  {
    hide WellFormed; hide FullName;
  }

  lemma {:induction false} CacheConsistent(cache: Cache, server: string, tools: seq<Tool>)
    requires Consistent(cache) && WellFormed(server)
    ensures Consistent(AfterCache(cache, server, tools))
  {
    hide Consistent; hide WellFormed; hide AddTool;
    if tools != [] {
      CacheConsistent(cache, server, tools[..|tools| - 1]);
      AddToolConsistent(AfterCache(cache, server, tools[..|tools| - 1]), server, tools[|tools| - 1]);
    }
  }

  /** Every cache that well-formed servers can bring about is filed that way. */
  lemma {:induction false} RunConsistent(ops: seq<Op>)
    requires AllWellFormed(ops)
    ensures Consistent(Run(ops))
  {
    hide WellFormed; hide FullName;
    if ops != [] {
      var front, op := ops[..|ops| - 1], ops[|ops| - 1];
      RunConsistent(front);
      if op.Cached? {
        assert WellFormed(op.server);
        CacheConsistent(Run(front), op.server, op.tools);
      }
    }
  }

  lemma ClearConsistent(cache: Cache, server: string)
    requires Consistent(cache) && WellFormed(server)
    ensures AfterClear(cache, server) == map k | k in cache && cache[k].serverName != server :: cache[k]
  {
    forall k | k in cache ensures ServerPrefix(server) <= k <==> cache[k].serverName == server {
      PrefixIdentifiesServer(server, cache[k].serverName, cache[k].tool.name);
    }
  }

  /** After any history of well-formed servers, deleting by prefix removes exactly the cached tools of
      that server. */
  lemma ClearRemovesExactly(ops: seq<Op>, server: string)
    requires AllWellFormed(ops) && WellFormed(server)
    ensures var cache := Run(ops);
            AfterClear(cache, server) == map k | k in cache && cache[k].serverName != server :: cache[k]
  {
    RunConsistent(ops);
    ClearConsistent(Run(ops), server);
  }

  /** Clearing undoes caching, for any server name and any cache. */
  lemma {:induction false} ClearUndoesCache(cache: Cache, server: string, tools: seq<Tool>)
    ensures AfterClear(AfterCache(cache, server, tools), server) == AfterClear(cache, server)
  {
    if tools != [] {
      var front, tool := tools[..|tools| - 1], tools[|tools| - 1];
      ClearUndoesCache(cache, server, front);
      assert ServerPrefix(server) <= FullName(server, tool.name);
      var c := AfterCache(cache, server, front);
      assert AfterClear(AddTool(c, server, tool), server) == AfterClear(c, server);
    }
  }

  // ---- The client object ----

  class Client {
    var toolCache: Cache

    constructor ()
      ensures toolCache == map[]
    {
      toolCache := map[];
    }

    /** `listed` is the server's tool list, or a failed listing, which caches nothing. */
    method CacheServerTools(serverName: string, listed: seq<Tool>, failed: bool)
      modifies this
      ensures toolCache == if failed then old(toolCache) else AfterCache(old(toolCache), serverName, listed)
    {
      if failed {
        return;
      }
      for i := 0 to |listed|
        invariant toolCache == AfterCache(old(toolCache), serverName, listed[..i])
      {
        var fullName := "mcp__" + serverName + "__" + listed[i].name;
        assert listed[..i + 1][..i] == listed[..i];
        toolCache := toolCache[fullName := DiscoveredTool(listed[i], serverName, fullName)];
      }
      assert listed[..|listed|] == listed;
    }

    method ClearServerTools(serverName: string)
      modifies this
      ensures toolCache == AfterClear(old(toolCache), serverName)
    {
      var prefix := "mcp__" + serverName + "__";
      var keys := toolCache.Keys;
      while keys != {}
        invariant keys <= old(toolCache).Keys
        invariant toolCache == map k | k in old(toolCache) && (k in keys || !(prefix <= k)) :: old(toolCache)[k]
        decreases keys
      {
        var fullName :| fullName in keys;
        if prefix <= fullName {
          toolCache := toolCache - {fullName};
        }
        keys := keys - {fullName};
      }
    }
  }
}
