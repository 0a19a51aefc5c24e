# MCP code review agent — a Dafny model

This project models the client side of a small MCP code review agent
(`run_mcp_agent.py`). It has two stateful parts.

- **The client manager** (`MCPClientManager`, here `Registry.ToolRegistry`)
  turns a server path into a launch command. It records each connected
  session under its server name. It indexes every discovered tool under the
  qualified key `server.tool` in an insertion-ordered dict. It dispatches a
  tool call to the owning session, and it lists the tool catalog.
- **The agent** (`CodeReviewAgentMCP`, here `Agent.CodeReviewAgent`) runs a
  bounded think/act loop. `think` asks the language model for a decision.
  `act` either finishes the run, calls a tool and appends one history
  record, or turns any failure into an error observation. `run` resets the
  history and repeats think/act at most `max_steps` times.

Modules:

- `Wrappers`: `Option` and `Result`.
- `Text`: Python's `startswith`, `endswith` and argument-less `split()` on
  `str.isspace` characters, and `str()` of an int.
- `ServerLaunch`: the command a server path is started with.
- `Json`: values produced by `json.loads`, their `repr()` (how they are
  written inside a list or dict) and their `str()` (how an f-string writes
  them in a history record).
- `OrderedDict`: a Python dict with string keys, i.e. a map plus the order
  in which keys were first inserted.
- `Registry`: the client manager.
- `Agent`: the agent.

External collaborators are parameters:

- A session is an opaque `SessionId`.
- The remote side of a tool call is a `ToolServer` function from (session,
  bare tool name, arguments) to a reply. The reply is a list of content
  texts or a raised error.
- `think` is a `Thinker` function from (model, request, history, catalog) to
  a `Decision`. The decision already holds `json.loads`' verdict on the
  reply: `Done(summary)`, `Invoke(tool, args?)`, `NoToolKey` (an object with
  neither a truthy `"done"` nor a `"tool"` key) or `Malformed(message)`.
- `call_tool` only reads the manager's tool index, so it is the function
  `Registry.CallTool` over that index (`ToolRegistry.availableTools`). It
  returns the requests it sent over a session (zero or one) together with
  its result. This is how "no session call for an unknown tool" is stated.
- `run` is specified by `RunOf`. Everything one step depends on besides
  its request and history is a `Context`: the model name, the tool index,
  the catalog, `think` and the tool server. `StepOf` is one think/act pair
  in a context. `RunFrom` is the loop over any step function (a `Loop`), and
  the `RunFrom*` lemmas hold for every step function. `RunOf` builds the
  full trace of steps: for each step, the request and history `think` saw,
  the decision, `act`'s result and the history `act` left.
  `CodeReviewAgent.RunSpec` is `RunOf` in the agent's own context, and the
  `Run` method is proved to return that trace's outcome and to leave its
  history.

Points where one might expect other behaviour; the model follows the code:

- With `max_steps < 1`, one might expect an "exhausted" message. Instead
  the loop body never runs and `result` is unbound at run_mcp_agent.py:206,
  so Python raises `UnboundLocalError`. The model returns
  `RunOutcome.UnboundResult`.
- A failed step is not appended to the history. Only a successful tool call
  appends a record (run_mcp_agent.py:177). Errors are only returned as the
  step's observation.
- Unknown tools raise `ValueError("Unknown tool: ...")` (run_mcp_agent.py:83).
  The model carries the error text, not a dedicated error class.
- A malformed reply becomes `"Error executing tool " + str(e)`, where `e` is
  the exception `json.loads` raised. The raw text is not kept.
- Qualified keys are not unique in general. A server named `a.b` with tool
  `c` and a server `a` with tool `b.c` both write the key `a.b.c`
  (`Registry.QualifiedKeyCollides`). Keys are unique when server names
  contain no dot (`Registry.QualifiedKeyInjective`).

## Model

| member | source | states |
|---|---|---|
| `Text.Split` | run_mcp_agent.py:35 | `str.split()`: every token is non-empty and has no whitespace, and the tokens together hold exactly the non-whitespace characters of the input; `SplitAfterWord` and `SplitSkipsSpace` fix where tokens break |
| `Text.SplitAfterWord` | run_mcp_agent.py:35 | a whitespace-free word followed by whitespace or by the end of the string is the first token, so tokens are maximal runs |
| `Text.SplitSkipsSpace` | run_mcp_agent.py:35 | a leading whitespace character changes no token |
| `Text.Decimal` | run_mcp_agent.py:206 | `str()` of an int: a non-empty string, a leading `-` exactly for negative numbers, and decimal digits after it |
| `Text.NatDigitsValue` | run_mcp_agent.py:206 | the digits written for a non-negative number spell that number, most significant first, and start with `0` only for zero |
| `Text.DecimalValue` | run_mcp_agent.py:206 | `str()` of an int spells its absolute value after the optional sign, without leading zeros; zero is exactly `"0"` |
| `Text.SplitJoinSpaced` | run_mcp_agent.py:35 | splitting words joined by single spaces gives the same words back |
| `Text.SplitFirstToken` | run_mcp_agent.py:35-36 | a string that starts with a whitespace-free prefix splits into a first token that starts with that prefix, so `parts[0]` exists for an `npx` path |
| `ServerLaunch.LaunchCommand` | run_mcp_agent.py:27-40 | ValueError exactly when the path has none of `.py`, `.js` or the `npx` prefix. `npx` wins over a suffix: the command is the first whitespace token and starts with `npx`, and the args are the other tokens. Otherwise `python` for `.py` and `node` for `.js`, with `[path]` as args |
| `ServerLaunch.NpxRoundTrip` | run_mcp_agent.py:34-37 | an `npx` command line of space-separated words launches its first word with the remaining words as args |
| `Json.Show` | run_mcp_agent.py:177 | `repr()` of a `json.loads` value, as written inside a list or dict; it is never empty, and its first character is a quote exactly for a string, `[` exactly for a list and `{` exactly for a dict |
| `Json.StrOfString` | run_mcp_agent.py:177 | the f-string's `str()` writes a string as its own text and anything else as its `repr()`, so the two differ exactly on strings, where `repr()` adds the quotes |
| `OrderedDict.Dict.Put` | run_mcp_agent.py:71-74 | `d[k] = v` overwrites the map entry. A new key goes to the end of the order, an existing key keeps its place, the old order is a prefix of the new one, and the dict invariant is kept |
| `Registry.QualifiedKey` | run_mcp_agent.py:70 | the key is the server name, a dot, then the tool name |
| `Registry.QualifiedKeyInjective` | run_mcp_agent.py:70 | for server names without a dot, equal keys mean equal server and tool names |
| `Registry.QualifiedKeyCollides` | run_mcp_agent.py:70 | two different (server, tool) pairs can form the same key |
| `Registry.IndexTools` | run_mcp_agent.py:69-74 | the discovery loop keeps the dict invariant and only appends to the key order |
| `Registry.IndexToolsRegisters` | run_mcp_agent.py:69-74 | after discovery, every discovered tool is under `server.name` with this server name and session, holding the last discovered tool of that name |
| `Registry.IndexToolsKeepsOthers` | run_mcp_agent.py:69-74 | every key not formed from this discovery keeps its presence and its entry |
| `Registry.IndexToolsFresh` | run_mcp_agent.py:65-74 | tools with distinct names and new keys append exactly their keys, in discovery order, each holding its own tool |
| `Registry.Describe` | run_mcp_agent.py:101-108 | one catalog row per key, in the given order, holding that key's description and input schema |
| `Registry.ToolRegistry.constructor` | run_mcp_agent.py:19-23 | a new manager has no sessions and no tools |
| `Registry.ToolRegistry.ConnectToServer` | run_mcp_agent.py:25-77 | an unsupported path raises with nothing changed. Otherwise the session is stored under the server name and the tools are indexed as `IndexTools` says. The registry invariant is preserved |
| `Registry.CallTool` | run_mcp_agent.py:79-97 | an unknown key sends nothing and fails with `Unknown tool: <name>`. A known key sends exactly one request, to its own session, with the stored bare name and the arguments. The result is the first content text, the fixed no-output sentinel for an empty reply (a success), or the session's error |
| `Registry.ToolRegistry.CallToolSendsBareName` | run_mcp_agent.py:85-92 | the name sent is not the qualified key, and it re-forms the key with the entry's server name |
| `Registry.ToolRegistry.ToolDescriptions` | run_mcp_agent.py:99-108 | one row per registry key, in insertion order, named by the key. The names are distinct and are exactly the registry's keys. It reads the registry and changes nothing |
| `Agent.CodeReviewAgent.constructor` | run_mcp_agent.py:120-123 | a new agent has an empty history |
| `Agent.ActOn` | run_mcp_agent.py:161-183 | it is finished exactly on a done decision, and then returns the summary. The history grows by at most one record. It grows exactly when a tool call succeeded, and the new record is `I used tool ... with args ... . Result: ...`, with the arguments written by `str()`. Every failure (malformed reply, missing `tool` key, unknown tool, tool error) returns `Error executing tool ...` and does not stop the loop |
| `Agent.CodeReviewAgent.Act` | run_mcp_agent.py:161-183 | returns what `ActOn` gives, and updates the history field to `ActOn`'s history |
| `Agent.StepOf` | run_mcp_agent.py:194-198 | one loop step: `think` sees the step's request and history, the step is finished exactly on a done decision and then returns its summary, and `act` leaves the history extended by at most one record |
| `Agent.RunFromLength` | run_mcp_agent.py:191-204 | the loop takes at most one step per remaining step number, and at least one if any remain |
| `Agent.RunFromSteps` | run_mcp_agent.py:191-204 | the first step is taken from the given request and history. Each later step is taken from the rewritten request and the history its predecessor left, and that predecessor did not finish |
| `Agent.RunFromDone` | run_mcp_agent.py:198-202 | a loop whose last step is done ends with that step's summary |
| `Agent.RunFromIncomplete` | run_mcp_agent.py:191-208 | a loop whose last step is not done ends with the incomplete message naming that step's result |
| `Agent.RunFromLastHistory` | run_mcp_agent.py:191-204 | a loop that took a step leaves the history its last step left |
| `Agent.RunFromExhausts` | run_mcp_agent.py:191-206 | a loop whose last step did not finish used every remaining step number |
| `Agent.RunFromHistory` | run_mcp_agent.py:191-204 | when every step only appends at most one record, the loop only appends to its starting history, at most one record per step |
| `Agent.RunStepBound` | run_mcp_agent.py:191-206 | `think` is called at most `max_steps` times, and at least once when `max_steps >= 1`. With `max_steps < 1` no step runs and the result is unbound |
| `Agent.RunRequests` | run_mcp_agent.py:188-204 | every step is a faithful think/act pair. The first `think` sees the user input and an empty history. Each later one sees `Previous result: ...\nContinue with the original task ...` built from the previous observation, with the history the previous step left |
| `Agent.RunReturnsFirstSummary` | run_mcp_agent.py:198-208 | no step before the last was done. A done last step's summary is returned. Otherwise all `max_steps` steps ran and the incomplete message with the last result is returned |
| `Agent.RunHistoryBound` | run_mcp_agent.py:188-204 | the final history has no more records than the number of steps taken |
| `Agent.CodeReviewAgent.Run` | run_mcp_agent.py:185-208 | returns `RunSpec`'s outcome and leaves `RunSpec`'s history |

## Left out

- Transport and session set-up are not modelled: `AsyncExitStack`, `stdio_client`, `ClientSession`, `initialize`, `list_tools` and `cleanup` (run_mcp_agent.py:42-63, 68, 110-114). The session and the discovered tools are inputs of `ConnectToServer`, and failures while connecting are not modelled.
- The environment forwarded to the server (`OPENAI_API_KEY`, run_mcp_agent.py:42) is not modelled. It is configuration, read from the process environment.
- The body of `think` (prompt text and the completion call, run_mcp_agent.py:125-159) is an oracle. Exceptions from the completion call, which would escape `run`, are not modelled.
- `json.loads` is not modelled: the `Decision` datatype stands for its outcome. A JSON value that is not an object raises `AttributeError` at `parsed.get`. `act`'s `except Exception` (run_mcp_agent.py:180-183) turns that into the observation `Error executing tool '<type>' object has no attribute 'get'`, and the loop goes on; a `Malformed` decision with that message expresses this case. Two cases are outside the model. A `"done"` reply without `"summary"`, or with a non-string summary, returns that value (`None`, a number, a list or a dict) as it is (run_mcp_agent.py:169, 203); `Done` carries a string, as the annotations `-> tuple[str, bool]` and `-> str` declare. A `"tool"` value that is not a string is not handled.
- Python's `repr()` of a string is always written in single quotes, without Python's escaping rules or its switch to double quotes. JSON floats are not modelled.
- A `Json` object may list a key twice, which `json.loads` never produces (a later duplicate overwrites the earlier one). `Show` of such a value lists both pairs; decisions are assumed to carry objects with distinct keys.
- The defaults `max_steps=10` (run_mcp_agent.py:185) and `model="gpt-4o-mini"` (run_mcp_agent.py:120) are not modelled: `Run` and the constructor take both values explicitly.
- Content items are modelled as their texts. A non-text first item, which raises `AttributeError` at `.text`, is not modelled.
- The tool server and `think` are fixed functions. The model does not capture answers that change from call to call for the same input.
- `print`, `main`, the API-key check and the traceback (run_mcp_agent.py:211-256) are I/O.
- async/await is sequential here. Concurrency is not modelled.
- `code_review_mcp_server.py` is not part of this model. It is the tool-hosting process: directory walks, file reads and a completion call.
