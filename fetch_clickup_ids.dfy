/** The id-discovery script: the `.env` loader that fills the process environment line by
    line, the token check, and the walk over teams, spaces, folders and lists that records
    every id in a name-keyed hierarchy. HTTP calls are an oracle from endpoint path to the
    decoded item list, or a failure. */
module FetchClickUpIds {
  import opened Common
  import opened JsString

  // ================================================================ name-keyed maps

  /** Writing the entries into an object one after the other: a later entry with the same
      key overwrites the earlier value. */
  function LastWins<V>(xs: seq<(string, V)>): map<string, V>
  {
    if |xs| == 0 then map[]
    else LastWins(xs[..|xs| - 1])[xs[|xs| - 1].0 := xs[|xs| - 1].1]
  }

  /** The keys are exactly the keys written. */
  lemma {:induction false} LastWinsKeys<V>(xs: seq<(string, V)>, k: string)
    ensures k in LastWins(xs) <==> exists i :: 0 <= i < |xs| && xs[i].0 == k
  {
    if |xs| > 0 {
      var init := xs[..|xs| - 1];
      LastWinsKeys(init, k);
      if exists i :: 0 <= i < |init| && init[i].0 == k {
        var i :| 0 <= i < |init| && init[i].0 == k;
        assert xs[i] == init[i];
      }
      if exists i :: 0 <= i < |xs| && xs[i].0 == k {
        var i :| 0 <= i < |xs| && xs[i].0 == k;
        if i < |init| {
          assert init[i] == xs[i];
        }
      }
    }
  }

  /** The value of a key is that of its last entry. */
  lemma {:induction false} LastWinsValue<V>(xs: seq<(string, V)>, i: nat)
    requires i < |xs|
    requires forall j :: i < j < |xs| ==> xs[j].0 != xs[i].0
    ensures xs[i].0 in LastWins(xs) && LastWins(xs)[xs[i].0] == xs[i].1
  {
    if i < |xs| - 1 {
      var init := xs[..|xs| - 1];
      assert init[i] == xs[i];
      LastWinsValue(init, i);
    }
  }

  // ================================================================ .env loader

  /** The entry a `.env` line writes: the line is split on `=`, the first segment is the key
      and the second the value (a third segment and beyond are dropped); the line is
      skipped when the key is empty or the value is missing or empty, and otherwise both are
      trimmed, so a blank key or value becomes the empty string. */
  function LineEntry(line: string): (r: Option<(string, string)>)
    ensures r.Some? ==> '=' !in r.value.0 && '=' !in r.value.1
  {
    var parts := Split(line, '=');
    if parts[0] != "" && |parts| >= 2 && parts[1] != "" then
      TrimmedPart(parts[0]);
      TrimmedPart(parts[1]);
      Some((Trim(parts[0]), Trim(parts[1])))
    else None
  }

  /** The trim of a segment without `=` has no `=`. */
  lemma TrimmedPart(part: string)
    requires '=' !in part
    ensures '=' !in Trim(part)
  {
    var r := Trim(part);
    var a :| OccursAt(part, r, a);
    assert forall i :: 0 <= i < |r| ==> r[i] == part[a + i];
  }

  /** The entry in terms of the positions of the first two `=`. */
  lemma LineEntryByPosition(line: string)
    ensures var i := IndexOf(line, '=');
            var rest := if i < |line| then line[i + 1..] else "";
            var value := rest[..IndexOf(rest, '=')];
            LineEntry(line) ==
              if i < |line| && i > 0 && value != "" then Some((Trim(line[..i]), Trim(value))) else None
  {
    SplitFirst(line, '=');
    var i := IndexOf(line, '=');
    if i < |line| {
      SplitFirst(line[i + 1..], '=');
    }
  }

  /** A line of a key, `=`, a value, and then nothing or a further `=`, writes the trimmed
      key and value, unless the key or the value is empty. */
  lemma KeyValueLine(key: string, value: string, tail: string)
    requires '=' !in key && '=' !in value
    requires tail == "" || tail[0] == '='
    ensures LineEntry(key + "=" + value + tail) == if key != "" && value != "" then Some((Trim(key), Trim(value))) else None
  {
    var line := key + "=" + value + tail;
    assert line == key + ['='] + (value + tail);
    SplitAtFirst(key, '=', value + tail);
    if tail == "" {
      assert value + tail == value;
      SplitWithoutSeparator(value, '=');
    } else {
      assert value + tail == value + ['='] + tail[1..];
      SplitAtFirst(value, '=', tail[1..]);
    }
  }

  /** Text after a second `=` is dropped. */
  lemma SecondSeparatorDropped(key: string, value: string, extra: string)
    requires '=' !in key && '=' !in value
    ensures LineEntry(key + "=" + value + "=" + extra) == LineEntry(key + "=" + value)
  {
    KeyValueLine(key, value, "=" + extra);
    KeyValueLine(key, value, "");
    assert key + "=" + value + "=" + extra == key + "=" + value + ("=" + extra);
    assert key + "=" + value + "" == key + "=" + value;
  }

  /** A key of blanks passes the emptiness check and trims to the empty name, which the
      environment refuses: the line changes nothing. */
  lemma BlankKeyNotStored(env: map<string, string>, key: string, value: string)
    requires key != "" && forall j :: 0 <= j < |key| ==> IsWhitespace(key[j])
    requires '=' !in value && value != ""
    ensures LineEntry(key + "=" + value) == Some(("", Trim(value)))
    ensures ApplyLines(env, [key + "=" + value]) == env
  {
    assert '=' !in key by {
      assert forall j :: 0 <= j < |key| ==> key[j] != '=';
    }
    KeyValueLine(key, value, "");
    assert key + "=" + value + "" == key + "=" + value;
    assert [key + "=" + value][..0] == [];
  }

  /** A line without `=`, or starting with it, writes nothing. */
  lemma LineWithoutKeyOrValue(line: string)
    requires '=' !in line || (|line| > 0 && line[0] == '=')
    ensures LineEntry(line).None?
  {
    LineEntryByPosition(line);
    if '=' !in line {
      assert IndexOf(line, '=') == |line|;
    }
  }

  /** `process.env[name] = value`: the runtime passes the write on to `setenv`, which
      refuses an empty name; the refusal is ignored, so nothing is stored. */
  function SetEnv(env: map<string, string>, name: string, value: string): map<string, string>
  {
    if name == "" then env else env[name := value]
  }

  /** The entry, if any, as a list of the entries the environment stores. */
  function EntryList(e: Option<(string, string)>): seq<(string, string)>
  {
    match e
    case Some(kv) => if kv.0 != "" then [kv] else []
    case None => []
  }

  /** The environment with the entry, if any, written into it. */
  function Write(env: map<string, string>, e: Option<(string, string)>): map<string, string>
  {
    match e
    case Some(kv) => SetEnv(env, kv.0, kv.1)
    case None => env
  }

  /** The stored entries of the lines, in file order. */
  function Accepted(lines: seq<string>): seq<(string, string)>
  {
    if |lines| == 0 then [] else Accepted(lines[..|lines| - 1]) + EntryList(LineEntry(lines[|lines| - 1]))
  }

  /** The environment after the lines: each line's entry written over it in file order. */
  function ApplyLines(env: map<string, string>, lines: seq<string>): (r: map<string, string>)
    ensures forall k :: k in env ==> k in r
    ensures forall k :: k in r && k !in env ==> k != "" && '=' !in k
  {
    if |lines| == 0 then env else Write(ApplyLines(env, lines[..|lines| - 1]), LineEntry(lines[|lines| - 1]))
  }

  lemma WriteMerged(env: map<string, string>, m: map<string, string>, e: Option<(string, string)>)
    ensures Write(env + m, e) == env + Write(m, e)
  {
  }

  /** The loaded environment is the old one overwritten by the file's entries, a later
      entry for the same key winning; keys the file does not name keep their values. */
  lemma {:induction false} ApplyLinesOverwrites(env: map<string, string>, lines: seq<string>)
    ensures ApplyLines(env, lines) == env + LastWins(Accepted(lines))
  {
    if |lines| > 0 {
      var init := lines[..|lines| - 1];
      var e := LineEntry(lines[|lines| - 1]);
      ApplyLinesOverwrites(env, init);
      WriteMerged(env, LastWins(Accepted(init)), e);
      var acc := Accepted(lines);
      assert acc == Accepted(init) + EntryList(e);
      if e.Some? && e.value.0 != "" {
        assert acc[..|acc| - 1] == Accepted(init);
      } else {
        assert acc == Accepted(init);
      }
    }
  }

  /** The `.env` loader: when the file exists, each of its lines (split on `\n`) is parsed
      and written into the environment. */
  method LoadEnv(env0: map<string, string>, file: Option<string>) returns (env: map<string, string>)
    ensures file.None? ==> env == env0
    ensures file.Some? ==> env == ApplyLines(env0, Split(file.value, '\n'))
  {
    env := env0;
    if file.Some? {
      var lines := Split(file.value, '\n');
      for n := 0 to |lines|
        invariant env == ApplyLines(env0, lines[..n])
      {
        assert lines[..n + 1][..n] == lines[..n];
        var parts := Split(lines[n], '=');
        var key := parts[0];
        if key != "" && |parts| >= 2 && parts[1] != "" {
          env := SetEnv(env, Trim(key), Trim(parts[1]));
        }
      }
      assert lines[..|lines|] == lines;
    }
  }

  /** The token the script needs; without it the script stops before any request. */
  const TokenName := "CLICKUP_API_TOKEN"

  predicate HasToken(env: map<string, string>)
  {
    TokenName in env && env[TokenName] != ""
  }

  // ================================================================ hierarchy

  /** A team, space, folder or list as the service lists it. */
  datatype Named = Named(id: string, name: string)

  /** A decoded response: the items of its list field, or a failure (an HTTP error, a
      network error, or a body without the list). */
  datatype Fetch = Fetched(items: seq<Named>) | FetchFailed

  /** The service, keyed by endpoint path. */
  type Api = string -> Fetch

  const TeamsPath := "/team"
  function SpacesPath(teamId: string): string { "/team/" + teamId + "/space?archived=false" }
  function FoldersPath(spaceId: string): string { "/space/" + spaceId + "/folder?archived=false" }
  function FolderListsPath(folderId: string): string { "/folder/" + folderId + "/list?archived=false" }
  function SpaceListsPath(spaceId: string): string { "/space/" + spaceId + "/list?archived=false" }

  datatype FolderNode = FolderNode(id: string, lists: map<string, string>)
  datatype SpaceNode = SpaceNode(id: string, folders: map<string, FolderNode>, lists: map<string, string>)
  datatype TeamNode = TeamNode(id: string, spaces: map<string, SpaceNode>)
  type Hierarchy = map<string, TeamNode>

  /** List name/id pairs, in response order. */
  function ListPairs(ls: seq<Named>): seq<(string, string)>
  {
    seq(|ls|, i requires 0 <= i < |ls| => (ls[i].name, ls[i].id))
  }

  /** The node of each item, paired with the item's name, in order; nothing as soon as one
      node cannot be built. */
  function NodeEntries<V>(items: seq<Named>, node: Named -> Option<V>): Option<seq<(string, V)>>
  {
    if |items| == 0 then Some([])
    else
      match NodeEntries(items[..|items| - 1], node)
      case None => None
      case Some(es) =>
        match node(items[|items| - 1])
        case None => None
        case Some(n) => Some(es + [(items[|items| - 1].name, n)])
  }

  /** The entries exist exactly when every item's node does, and then pair each item's
      name with its node, in item order. */
  lemma {:induction false} NodeEntriesSpec<V>(items: seq<Named>, node: Named -> Option<V>)
    ensures NodeEntries(items, node).Some? <==> forall i :: 0 <= i < |items| ==> node(items[i]).Some?
    ensures NodeEntries(items, node).Some? ==>
      && |NodeEntries(items, node).value| == |items|
      && forall i :: 0 <= i < |items| ==> NodeEntries(items, node).value[i] == (items[i].name, node(items[i]).value)
  {
    if |items| > 0 {
      var init := items[..|items| - 1];
      NodeEntriesSpec(init, node);
      assert forall i :: 0 <= i < |init| ==> init[i] == items[i];
    }
  }

  function FolderNodeOf(api: Api, folder: Named): Option<FolderNode>
  {
    match api(FolderListsPath(folder.id))
    case FetchFailed => None
    case Fetched(ls) => Some(FolderNode(folder.id, LastWins(ListPairs(ls))))
  }

  function FolderNodes(api: Api): Named -> Option<FolderNode>
  {
    f => FolderNodeOf(api, f)
  }

  function SpaceNodeOf(api: Api, space: Named): Option<SpaceNode>
  {
    match api(FoldersPath(space.id))
    case FetchFailed => None
    case Fetched(fs) =>
      match NodeEntries(fs, FolderNodes(api))
      case None => None
      case Some(es) =>
        match api(SpaceListsPath(space.id))
        case FetchFailed => None
        case Fetched(ls) => Some(SpaceNode(space.id, LastWins(es), LastWins(ListPairs(ls))))
  }

  function SpaceNodes(api: Api): Named -> Option<SpaceNode>
  {
    s => SpaceNodeOf(api, s)
  }

  function TeamNodeOf(api: Api, team: Named): Option<TeamNode>
  {
    match api(SpacesPath(team.id))
    case FetchFailed => None
    case Fetched(ss) =>
      match NodeEntries(ss, SpaceNodes(api))
      case None => None
      case Some(es) => Some(TeamNode(team.id, LastWins(es)))
  }

  function TeamNodes(api: Api): Named -> Option<TeamNode>
  {
    t => TeamNodeOf(api, t)
  }

  /** The hierarchy the script saves, or nothing when any request fails (the error is
      caught and logged, and no file is written). */
  function HierarchyOf(api: Api): (r: Option<Hierarchy>)
    ensures r.Some? ==> api(TeamsPath).Fetched?
    ensures r.Some? ==> forall name :: name in r.value <==>
      exists i :: 0 <= i < |api(TeamsPath).items| && api(TeamsPath).items[i].name == name
  {
    match api(TeamsPath)
    case FetchFailed => None
    case Fetched(ts) =>
      match NodeEntries(ts, TeamNodes(api))
      case None => None
      case Some(es) =>
        NodeEntriesSpec(ts, TeamNodes(api));
        forall name ensures name in LastWins(es) <==> exists i :: 0 <= i < |ts| && ts[i].name == name {
          LastWinsKeys(es, name);
          if exists i :: 0 <= i < |es| && es[i].0 == name {
            var i :| 0 <= i < |es| && es[i].0 == name;
            assert ts[i].name == name;
          }
          if exists i :: 0 <= i < |ts| && ts[i].name == name {
            var i :| 0 <= i < |ts| && ts[i].name == name;
            assert es[i].0 == name;
          }
        }
        Some(LastWins(es))
  }

  /** A folder's lists come from that folder's list endpoint, and the space's own lists from
      the space's folderless-list endpoint; folders are keyed by name, a later folder of the
      same name replacing the earlier one. */
  lemma SpaceListsPlacement(api: Api, space: Named, fs: seq<Named>, ls: seq<Named>, i: nat)
    requires api(FoldersPath(space.id)) == Fetched(fs)
    requires api(SpaceListsPath(space.id)) == Fetched(ls)
    requires forall j :: 0 <= j < |fs| ==> api(FolderListsPath(fs[j].id)).Fetched?
    requires i < |fs| && forall j :: i < j < |fs| ==> fs[j].name != fs[i].name
    ensures SpaceNodeOf(api, space).Some?
    ensures SpaceNodeOf(api, space).value.lists == LastWins(ListPairs(ls))
    ensures fs[i].name in SpaceNodeOf(api, space).value.folders
    ensures SpaceNodeOf(api, space).value.folders[fs[i].name]
            == FolderNode(fs[i].id, LastWins(ListPairs(api(FolderListsPath(fs[i].id)).items)))
  {
    NodeEntriesSpec(fs, FolderNodes(api));
    var es := NodeEntries(fs, FolderNodes(api)).value;
    LastWinsValue(es, i);
  }

  /** No hierarchy is produced when the team list or any team's subtree fails; otherwise
      each team name maps to the subtree of the last team with that name. */
  lemma HierarchyFailures(api: Api)
    ensures api(TeamsPath).FetchFailed? ==> HierarchyOf(api).None?
    ensures api(TeamsPath).Fetched? ==>
      (HierarchyOf(api).Some? <==>
         forall i :: 0 <= i < |api(TeamsPath).items| ==> TeamNodeOf(api, api(TeamsPath).items[i]).Some?)
  {
    if api(TeamsPath).Fetched? {
      NodeEntriesSpec(api(TeamsPath).items, TeamNodes(api));
    }
  }

  /** A team name keys the subtree of the last team listed under that name. */
  lemma HierarchyLastTeamWins(api: Api, i: nat)
    requires HierarchyOf(api).Some?
    requires i < |api(TeamsPath).items|
    requires forall j :: i < j < |api(TeamsPath).items| ==> api(TeamsPath).items[j].name != api(TeamsPath).items[i].name
    ensures api(TeamsPath).items[i].name in HierarchyOf(api).value
    ensures TeamNodeOf(api, api(TeamsPath).items[i]).Some?
    ensures HierarchyOf(api).value[api(TeamsPath).items[i].name] == TeamNodeOf(api, api(TeamsPath).items[i]).value
  {
    var ts := api(TeamsPath).items;
    NodeEntriesSpec(ts, TeamNodes(api));
    LastWinsValue(NodeEntries(ts, TeamNodes(api)).value, i);
  }

  // ---------------------------------------------------------------- the walk

  /** The list names and ids of a list endpoint, written into a fresh object. */
  method FetchLists(api: Api, path: string) returns (lists: Option<map<string, string>>)
    ensures api(path).FetchFailed? ==> lists.None?
    ensures api(path).Fetched? ==> lists == Some(LastWins(ListPairs(api(path).items)))
  {
    var data := api(path);
    if data.FetchFailed? {
      return None;
    }
    var ls := data.items;
    var m: map<string, string> := map[];
    for n := 0 to |ls|
      invariant m == LastWins(ListPairs(ls[..n]))
    {
      assert ListPairs(ls[..n + 1])[..n] == ListPairs(ls[..n]);
      m := m[ls[n].name := ls[n].id];
    }
    assert ListPairs(ls[..|ls|]) == ListPairs(ls);
    lists := Some(m);
  }

  method FetchFolder(api: Api, folder: Named) returns (node: Option<FolderNode>)
    ensures node == FolderNodeOf(api, folder)
  {
    var lists := FetchLists(api, FolderListsPath(folder.id));
    if lists.None? {
      return None;
    }
    node := Some(FolderNode(folder.id, lists.value));
  }

  method FetchSpace(api: Api, space: Named) returns (node: Option<SpaceNode>)
    ensures node == SpaceNodeOf(api, space)
  {
    var data := api(FoldersPath(space.id));
    if data.FetchFailed? {
      return None;
    }
    var fs := data.items;
    var folders: map<string, FolderNode> := map[];
    for n := 0 to |fs|
      invariant NodeEntries(fs[..n], FolderNodes(api)).Some?
      invariant folders == LastWins(NodeEntries(fs[..n], FolderNodes(api)).value)
    {
      assert fs[..n + 1][..n] == fs[..n];
      var folder := FetchFolder(api, fs[n]);
      if folder.None? {
        NodeEntriesFailure(fs, n + 1, FolderNodes(api));
        return None;
      }
      ghost var es := NodeEntries(fs[..n + 1], FolderNodes(api)).value;
      assert es[..|es| - 1] == NodeEntries(fs[..n], FolderNodes(api)).value;
      folders := folders[fs[n].name := folder.value];
    }
    assert fs[..|fs|] == fs;
    var lists := FetchLists(api, SpaceListsPath(space.id));
    if lists.None? {
      return None;
    }
    node := Some(SpaceNode(space.id, folders, lists.value));
  }

  method FetchTeam(api: Api, team: Named) returns (node: Option<TeamNode>)
    ensures node == TeamNodeOf(api, team)
  {
    var data := api(SpacesPath(team.id));
    if data.FetchFailed? {
      return None;
    }
    var ss := data.items;
    var spaces: map<string, SpaceNode> := map[];
    for n := 0 to |ss|
      invariant NodeEntries(ss[..n], SpaceNodes(api)).Some?
      invariant spaces == LastWins(NodeEntries(ss[..n], SpaceNodes(api)).value)
    {
      assert ss[..n + 1][..n] == ss[..n];
      var space := FetchSpace(api, ss[n]);
      if space.None? {
        NodeEntriesFailure(ss, n + 1, SpaceNodes(api));
        return None;
      }
      ghost var es := NodeEntries(ss[..n + 1], SpaceNodes(api)).value;
      assert es[..|es| - 1] == NodeEntries(ss[..n], SpaceNodes(api)).value;
      spaces := spaces[ss[n].name := space.value];
    }
    assert ss[..|ss|] == ss;
    node := Some(TeamNode(team.id, spaces));
  }

  /** The script's walk: every team, space, folder and list recorded by name, or nothing
      when a request fails. */
  method BuildHierarchy(api: Api) returns (hierarchy: Option<Hierarchy>)
    ensures hierarchy == HierarchyOf(api)
  {
    var data := api(TeamsPath);
    if data.FetchFailed? {
      return None;
    }
    var ts := data.items;
    var h: Hierarchy := map[];
    for n := 0 to |ts|
      invariant NodeEntries(ts[..n], TeamNodes(api)).Some?
      invariant h == LastWins(NodeEntries(ts[..n], TeamNodes(api)).value)
    {
      assert ts[..n + 1][..n] == ts[..n];
      var team := FetchTeam(api, ts[n]);
      if team.None? {
        NodeEntriesFailure(ts, n + 1, TeamNodes(api));
        return None;
      }
      ghost var es := NodeEntries(ts[..n + 1], TeamNodes(api)).value;
      assert es[..|es| - 1] == NodeEntries(ts[..n], TeamNodes(api)).value;
      h := h[ts[n].name := team.value];
    }
    assert ts[..|ts|] == ts;
    hierarchy := Some(h);
  }

  /** A failed prefix makes the whole walk fail. */
  lemma {:induction false} NodeEntriesFailure<V>(items: seq<Named>, n: nat, node: Named -> Option<V>)
    requires n <= |items|
    requires NodeEntries(items[..n], node).None?
    ensures NodeEntries(items, node).None?
  {
    if n < |items| {
      var init := items[..|items| - 1];
      assert init[..n] == items[..n];
      NodeEntriesFailure(init, n, node);
    } else {
      assert items[..n] == items;
    }
  }

  /** The script's outcome: it stops when the loaded environment has no token, and
      otherwise saves the hierarchy unless a request fails. */
  datatype RunOutcome = MissingToken | Ran(saved: Option<Hierarchy>)

  method Run(env0: map<string, string>, file: Option<string>, api: Api) returns (outcome: RunOutcome)
    ensures var env := if file.Some? then ApplyLines(env0, Split(file.value, '\n')) else env0;
            outcome == if HasToken(env) then Ran(HierarchyOf(api)) else MissingToken
  {
    var env := LoadEnv(env0, file);
    if !HasToken(env) {
      return MissingToken;
    }
    var saved := BuildHierarchy(api);
    outcome := Ran(saved);
  }
}
