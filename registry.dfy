/**
 * The MCP client manager (run_mcp_agent.py, class MCPClientManager): the
 * sessions it has opened, keyed by server name, and a flat, insertion-ordered
 * index of every discovered tool under the key "server.tool". A session is an
 * opaque id; what a session answers to a tool call is the `ToolServer`
 * oracle passed in by the caller.
 */
module Registry {
  import opened Wrappers
  import opened Text
  import opened ServerLaunch
  import opened Json
  import opened OrderedDict

  datatype SessionId = SessionId(id: nat)

  /** A tool as list_tools reports it. */
  datatype Tool = Tool(name: string, description: string, inputSchema: Json)

  /** The value stored per qualified key: the owning server's name, its session and the tool. */
  datatype ToolEntry = ToolEntry(serverName: string, session: SessionId, tool: Tool)

  /** One element of the catalog shown to the language model. */
  datatype ToolDescription = ToolDescription(name: string, description: string, inputSchema: Json)

  /** What a session's call_tool gives back: the text of each content item, or a raised error. */
  datatype ToolReply = Reply(content: seq<string>) | Raised(error: string)

  /** The remote side: the reply of session `s` to calling tool `name` with `args`. */
  type ToolServer = (SessionId, string, Json) -> ToolReply

  /** One call sent over a session. */
  datatype Request = Request(session: SessionId, tool: string, args: Json)

  /** The calls `call_tool` sends (at most one) and what it returns or raises. */
  datatype Dispatch = Dispatch(sent: seq<Request>, result: Result<string, string>)

  const NoOutput := "Tool executed successfully (no output)"

  function UnknownTool(name: string): string {
    "Unknown tool: " + name
  }

  /** The registry key of tool `tool` of server `server`: f"{server}.{tool}". */
  function QualifiedKey(server: string, tool: string): (k: string)
    ensures |k| == |server| + 1 + |tool| && k[|server|] == '.'
    ensures HasPrefix(k, server) && HasSuffix(k, tool)
  {
    server + "." + tool
  }

  /** Keys that differ only in where the first dot falls coincide: "a.b" + "c" and "a" + "b.c". */
  lemma QualifiedKeyCollides()
    ensures QualifiedKey("a.b", "c") == QualifiedKey("a", "b.c")
  {
  }

  /** Server names without a dot make qualified keys unambiguous. */
  lemma QualifiedKeyInjective(s1: string, t1: string, s2: string, t2: string)
    requires '.' !in s1 && '.' !in s2
    requires QualifiedKey(s1, t1) == QualifiedKey(s2, t2)
    ensures s1 == s2 && t1 == t2
  {
    var k := QualifiedKey(s1, t1);
    assert |s1| == |s2|;
    assert s1 == k[..|s1|] == s2;
    assert t1 == k[|s1| + 1..] == t2;
  }

  lemma QualifiedKeyInjectiveInTool(server: string, t1: string, t2: string)
    requires t1 != t2
    ensures QualifiedKey(server, t1) != QualifiedKey(server, t2)
  {
  }

  /** A key that the discovery of `tools` on server `server` writes. */
  predicate FormedKey(k: string, server: string, tools: seq<Tool>) {
    exists i :: 0 <= i < |tools| && k == QualifiedKey(server, tools[i].name)
  }

  /** The last position in `tools` of a tool called `name`, or -1 if there is none. */
  function LastNamed(tools: seq<Tool>, name: string): (j: int)
    ensures -1 <= j < |tools|
    ensures j >= 0 ==> tools[j].name == name
    ensures forall i :: j < i < |tools| ==> tools[i].name != name
  {
    if tools == [] then -1
    else if tools[|tools| - 1].name == name then |tools| - 1
    else LastNamed(tools[..|tools| - 1], name)
  }

  /**
   * The discovery loop of connect_to_server: each tool in turn is stored
   * under its qualified key, so a later tool of the same name replaces an
   * earlier one.
   */
  function IndexTools(d: Dict<ToolEntry>, server: string, session: SessionId, tools: seq<Tool>): (r: Dict<ToolEntry>)
    ensures d.Valid() ==> r.Valid()
    ensures d.keys <= r.keys
    decreases |tools|
  {
    if tools == [] then d
    else
      var last := tools[|tools| - 1];
      IndexTools(d, server, session, tools[..|tools| - 1]).Put(QualifiedKey(server, last.name), ToolEntry(server, session, last))
  }

  /** After discovery every tool is registered under its qualified key, for this server and session, as the last tool of its name. */
  lemma {:induction false} IndexToolsRegisters(d: Dict<ToolEntry>, server: string, session: SessionId, tools: seq<Tool>, i: int)
    requires 0 <= i < |tools|
    ensures var r := IndexTools(d, server, session, tools);
      var k := QualifiedKey(server, tools[i].name);
      && k in r.entries
      && r.entries[k] == ToolEntry(server, session, tools[LastNamed(tools, tools[i].name)])
    decreases |tools|
  {
    var n := |tools| - 1;
    var front := tools[..n];
    if tools[n].name == tools[i].name {
      assert QualifiedKey(server, tools[n].name) == QualifiedKey(server, tools[i].name);
    } else {
      assert i < n;
      assert front[i] == tools[i];
      IndexToolsRegisters(d, server, session, front, i);
      var k := QualifiedKey(server, tools[i].name);
      assert k != QualifiedKey(server, tools[n].name);
    }
  }

  /** Discovery leaves every key it does not form as it was. */
  lemma {:induction false} IndexToolsKeepsOthers(d: Dict<ToolEntry>, server: string, session: SessionId, tools: seq<Tool>, k: string)
    requires !FormedKey(k, server, tools)
    ensures var r := IndexTools(d, server, session, tools);
      && (k in r.entries <==> k in d.entries)
      && (k in d.entries ==> r.entries[k] == d.entries[k])
    decreases |tools|
  {
    if tools != [] {
      var n := |tools| - 1;
      assert !FormedKey(k, server, tools[..n]) by {
        assert forall i :: 0 <= i < n ==> tools[..n][i] == tools[i];
      }
      IndexToolsKeepsOthers(d, server, session, tools[..n], k);
      assert k != QualifiedKey(server, tools[n].name);
    }
  }

  /** The qualified keys of `tools`, in discovery order. */
  function KeysOf(server: string, tools: seq<Tool>): (ks: seq<string>)
    ensures |ks| == |tools|
    ensures forall i :: 0 <= i < |tools| ==> ks[i] == QualifiedKey(server, tools[i].name)
  {
    seq(|tools|, i requires 0 <= i < |tools| => QualifiedKey(server, tools[i].name))
  }

  /**
   * Discovering tools with distinct names whose keys are all new appends
   * exactly their keys, in discovery order, each holding its own tool.
   */
  lemma IndexToolsFresh(d: Dict<ToolEntry>, server: string, session: SessionId, tools: seq<Tool>)
    requires forall i, j :: 0 <= i < j < |tools| ==> tools[i].name != tools[j].name
    requires forall i :: 0 <= i < |tools| ==> QualifiedKey(server, tools[i].name) !in d.entries
    ensures var r := IndexTools(d, server, session, tools);
      && r.keys == d.keys + KeysOf(server, tools)
      && forall i :: 0 <= i < |tools| ==> QualifiedKey(server, tools[i].name) in r.entries && r.entries[QualifiedKey(server, tools[i].name)] == ToolEntry(server, session, tools[i])
  {
    IndexToolsFreshKeys(d, server, session, tools);
    forall i | 0 <= i < |tools|
      ensures QualifiedKey(server, tools[i].name) in IndexTools(d, server, session, tools).entries
      ensures IndexTools(d, server, session, tools).entries[QualifiedKey(server, tools[i].name)] == ToolEntry(server, session, tools[i])
    {
      IndexToolsRegisters(d, server, session, tools, i);
      assert LastNamed(tools, tools[i].name) == i;
    }
  }

  lemma {:induction false} IndexToolsFreshKeys(d: Dict<ToolEntry>, server: string, session: SessionId, tools: seq<Tool>)
    requires forall i, j :: 0 <= i < j < |tools| ==> tools[i].name != tools[j].name
    requires forall i :: 0 <= i < |tools| ==> QualifiedKey(server, tools[i].name) !in d.entries
    ensures IndexTools(d, server, session, tools).keys == d.keys + KeysOf(server, tools)
    decreases |tools|
  {
    if tools == [] {
      assert d.keys + [] == d.keys;
    } else {
      var n := |tools| - 1;
      var front := tools[..n];
      IndexToolsFreshKeys(d, server, session, front);
      var k := QualifiedKey(server, tools[n].name);
      assert !FormedKey(k, server, front) by {
        forall i | 0 <= i < n
          ensures k != QualifiedKey(server, front[i].name)
        {
          QualifiedKeyInjectiveInTool(server, front[i].name, tools[n].name);
        }
      }
      IndexToolsKeepsOthers(d, server, session, front, k);
      assert KeysOf(server, tools) == KeysOf(server, front) + [k];
    }
  }

  /** The catalog rows for `keys`, one per key, in the order given. */
  function Describe(keys: seq<string>, entries: map<string, ToolEntry>): (r: seq<ToolDescription>)
    requires forall i :: 0 <= i < |keys| ==> keys[i] in entries
    ensures |r| == |keys|
    ensures forall i :: 0 <= i < |keys| ==>
      && r[i].name == keys[i]
      && r[i].description == entries[keys[i]].tool.description
      && r[i].inputSchema == entries[keys[i]].tool.inputSchema
  {
    if keys == [] then []
    else
      var t := entries[keys[0]].tool;
      [ToolDescription(keys[0], t.description, t.inputSchema)] + Describe(keys[1..], entries)
  }

  /**
   * call_tool over the manager's tool index `tools` (it only reads the
   * index): an unknown key raises "Unknown tool: ..." before any session is
   * called; a known key calls its own session with the tool's bare name and
   * the arguments unchanged, and yields the first content item's text, the
   * no-output sentinel for an empty reply, or the session's error.
   */
  function CallTool(tools: Dict<ToolEntry>, toolName: string, arguments: Json, server: ToolServer): (c: Dispatch)
    ensures toolName !in tools.entries <==> c.sent == []
    ensures toolName !in tools.entries ==> c.result == Failure(UnknownTool(toolName))
    ensures toolName in tools.entries ==>
      var e := tools.entries[toolName];
      && c.sent == [Request(e.session, e.tool.name, arguments)]
      && var reply := server(e.session, e.tool.name, arguments);
         && (reply == Reply([]) ==> c.result == Success(NoOutput))
         && (reply.Reply? && reply.content != [] ==> c.result == Success(reply.content[0]))
         && (reply.Raised? ==> c.result == Failure(reply.error))
  {
    if toolName !in tools.entries then
      Dispatch([], Failure(UnknownTool(toolName)))
    else
      var e := tools.entries[toolName];
      var request := Request(e.session, e.tool.name, arguments);
      match server(request.session, request.tool, request.args)
      case Raised(err) => Dispatch([request], Failure(err))
      case Reply(content) =>
        Dispatch([request], Success(if |content| > 0 then content[0] else NoOutput))
  }

  class ToolRegistry {
    var sessions: map<string, SessionId>
    var availableTools: Dict<ToolEntry>

    /** Every key is the qualified name of the tool it holds, and its server has a session. */
    ghost predicate Valid()
      reads this
    {
      && availableTools.Valid()
      && forall k :: k in availableTools.entries ==>
           && k == QualifiedKey(availableTools.entries[k].serverName, availableTools.entries[k].tool.name)
           && availableTools.entries[k].serverName in sessions
    }

    constructor ()
      ensures Valid()
      ensures sessions == map[] && availableTools == Empty()
    {
      sessions := map[];
      availableTools := Empty();
    }

    /**
     * connect_to_server: derive the launch command (raising ValueError for
     * an unsupported path, with nothing changed), record the session under
     * the server's name, then index each discovered tool. Starting the
     * process and the handshake that yield `session` and `discovered` are
     * not modelled.
     */
    method ConnectToServer(serverName: string, path: string, session: SessionId, discovered: seq<Tool>)
      returns (r: Result<Launch, string>)
      requires Valid()
      modifies this
      ensures Valid()
      ensures r == LaunchCommand(path)
      ensures r.Failure? ==> sessions == old(sessions) && availableTools == old(availableTools)
      ensures r.Success? ==>
        && sessions == old(sessions)[serverName := session]
        && availableTools == IndexTools(old(availableTools), serverName, session, discovered)
    {
      r := LaunchCommand(path);
      if r.Failure? {
        return;
      }
      sessions := sessions[serverName := session];
      for i := 0 to |discovered|
        invariant sessions == old(sessions)[serverName := session]
        invariant availableTools == IndexTools(old(availableTools), serverName, session, discovered[..i])
        invariant Valid()
      {
        var tool := discovered[i];
        assert discovered[..i + 1][..i] == discovered[..i];
        availableTools := availableTools.Put(QualifiedKey(serverName, tool.name), ToolEntry(serverName, session, tool));
      }
      assert discovered[..|discovered|] == discovered;
    }

    /** call_tool sends the bare tool name, which is not the key, to the session of the key's server. */
    lemma CallToolSendsBareName(toolName: string, arguments: Json, server: ToolServer)
      requires Valid() && toolName in availableTools.entries
      ensures var c := CallTool(availableTools, toolName, arguments, server);
        var e := availableTools.entries[toolName];
        && |c.sent| == 1
        && c.sent[0].tool != toolName
        && QualifiedKey(e.serverName, c.sent[0].tool) == toolName
        && e.serverName in sessions
    {
    }

    /** get_tool_descriptions: one row per key, named by the key, in insertion order; nothing changes. */
    function ToolDescriptions(): (r: seq<ToolDescription>)
      reads this
      requires Valid()
      ensures |r| == |availableTools.keys| == |availableTools.entries|
      ensures forall k :: k in availableTools.entries <==> exists i :: 0 <= i < |r| && r[i].name == k
      ensures forall i, j :: 0 <= i < j < |r| ==> r[i].name != r[j].name
      ensures forall i :: 0 <= i < |r| ==>
        && r[i].name == availableTools.keys[i]
        && r[i].description == availableTools.entries[r[i].name].tool.description
        && r[i].inputSchema == availableTools.entries[r[i].name].tool.inputSchema
    {
      DescribeKeys(availableTools);
      Describe(availableTools.keys, availableTools.entries)
    }
  }

  /** The catalog of a valid dict names each of its keys once. */
  lemma DescribeKeys(d: Dict<ToolEntry>)
    requires d.Valid()
    ensures var r := Describe(d.keys, d.entries);
      && |r| == |d.entries|
      && (forall k :: k in d.entries <==> exists i :: 0 <= i < |r| && r[i].name == k)
      && (forall i, j :: 0 <= i < j < |r| ==> r[i].name != r[j].name)
  {
    DistinctKeysCount(d);
    var r := Describe(d.keys, d.entries);
    forall k | k in d.entries
      ensures exists i :: 0 <= i < |r| && r[i].name == k
    {
      var i :| 0 <= i < |d.keys| && d.keys[i] == k;
      assert r[i].name == k;
    }
  }

  lemma DistinctKeysCount(d: Dict<ToolEntry>)
    requires d.Valid()
    ensures |d.entries| == |d.keys|
  {
    var ks := d.keys;
    assert d.entries.Keys == set k | k in ks;
    DistinctSeqCard(ks);
  }

  lemma {:induction false} DistinctSeqCard(ks: seq<string>)
    requires forall i, j :: 0 <= i < j < |ks| ==> ks[i] != ks[j]
    ensures |set k | k in ks| == |ks|
  {
    if ks != [] {
      var tail := ks[1..];
      DistinctSeqCard(tail);
      assert (set k | k in ks) == {ks[0]} + (set k | k in tail);
      assert ks[0] !in tail;
    }
  }
}
