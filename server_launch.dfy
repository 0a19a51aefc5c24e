/**
 * How MCPClientManager.connect_to_server (run_mcp_agent.py) turns a server
 * path into the command it starts the server with.
 */
module ServerLaunch {
  import opened Wrappers
  import opened Text

  /** The command and argument list a server is started with. */
  datatype Launch = Launch(command: string, args: seq<string>)

  const NotAScript := "Server script must be a .py or .js file"

  predicate IsPythonScript(path: string) { HasSuffix(path, ".py") }
  predicate IsNodeScript(path: string) { HasSuffix(path, ".js") }
  predicate IsNpmPackage(path: string) { HasPrefix(path, "npx") }

  /**
   * The launch command for a server path: an `npx ...` command line is
   * split on whitespace (this takes precedence over the file suffix);
   * otherwise a `.py` script runs under `python` and a `.js` script under
   * `node`, with the path as the only argument; anything else raises
   * ValueError.
   */
  function LaunchCommand(path: string): (r: Result<Launch, string>)
    ensures r.Failure? <==> !(IsPythonScript(path) || IsNodeScript(path) || IsNpmPackage(path))
    ensures r.Failure? ==> r.error == NotAScript
    ensures IsNpmPackage(path) ==>
      && r.Success?
      && HasPrefix(r.value.command, "npx")
      && [r.value.command] + r.value.args == Split(path)
      && r.value.command + Concat(r.value.args) == Squeeze(path)
      && forall i :: 0 <= i < |r.value.args| ==> IsWord(r.value.args[i])
    ensures r.Success? && !IsNpmPackage(path) ==>
      && r.value.args == [path]
      && r.value.command == (if IsPythonScript(path) then "python" else "node")
  {
    if !(IsPythonScript(path) || IsNodeScript(path) || IsNpmPackage(path)) then
      Failure(NotAScript)
    else if IsNpmPackage(path) then
      var parts := Split(path);
      SplitFirstToken(path, "npx");
      assert parts == [parts[0]] + parts[1..];
      assert Concat(parts) == parts[0] + Concat(parts[1..]);
      Success(Launch(parts[0], parts[1..]))
    else
      Success(Launch(if IsPythonScript(path) then "python" else "node", [path]))
  }

  /** An npx command line written as words separated by single spaces launches its first word with the rest as arguments. */
  lemma NpxRoundTrip(words: seq<string>)
    requires |words| >= 1 && HasPrefix(words[0], "npx")
    requires forall i :: 0 <= i < |words| ==> IsWord(words[i])
    ensures LaunchCommand(JoinSpaced(words)) == Success(Launch(words[0], words[1..]))
  {
    var s := JoinSpaced(words);
    SplitJoinSpaced(words);
    JoinSpacedPrefix(words);
    assert IsNpmPackage(s) by {
      assert s[..3] == s[..|words[0]|][..3] == words[0][..3];
    }
    var r := LaunchCommand(s);
    assert [r.value.command] + r.value.args == words;
    assert r.value.command == words[0];
    assert r.value.args == words[1..];
  }
}
