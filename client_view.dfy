/** The client page: the client record shown for the selected client, read from the
    custom fields of the matching macro-operation task, the resolution of the client's
    operational list id from the configured name-to-id map, and the state changes of the
    page's two effects (initial selection, and reaction to a selection). */
module ClientView {
  import opened Common
  import opened JsString
  import opened ClickUpTypes
  import ClickUpService

  // ================================================================ role fields

  /** The role substrings, already lower-case. */
  const OnboardingNeedles: seq<string> := ["onboarding"]
  const AccountNeedles: seq<string> := ["account"]
  const TrafficNeedles: seq<string> := ["tráfego", "gt"]
  const ContentNeedles: seq<string> := ["conteúdo", "gc"]

  /** The lower-cased field name contains one of the needles. */
  predicate NameMatches(f: CustomField, needles: seq<string>)
  {
    exists k :: 0 <= k < |needles| && Contains(ToLower(f.name), needles[k])
  }

  /** `i` is the first custom field of `task` whose name matches. */
  predicate FirstRoleField(task: Task, needles: seq<string>, i: int)
  {
    && task.customFields.Some?
    && 0 <= i < |task.customFields.value|
    && NameMatches(task.customFields.value[i], needles)
    && forall k :: 0 <= k < i ==> !NameMatches(task.customFields.value[k], needles)
  }

  /** `task.custom_fields?.find(f => f.name.toLowerCase().includes(...))`: the first custom
      field whose lower-cased name contains one of the role's substrings. */
  function RoleField(task: Task, needles: seq<string>): (r: Option<CustomField>)
    ensures r.Some? ==> exists i :: FirstRoleField(task, needles, i) && r.value == task.customFields.value[i]
    ensures r.None? <==>
      (task.customFields.None?
       || forall k :: 0 <= k < |task.customFields.value| ==> !NameMatches(task.customFields.value[k], needles))
  {
    match task.customFields
    case None => None
    case Some(fields) =>
      match FindIndex(fields, f => NameMatches(f, needles))
      case None => None
      case Some(i) =>
        assert FirstRoleField(task, needles, i);
        Some(fields[i])
  }

  // ================================================================ field values

  /** A value that is computed, or the `TypeError` JavaScript raises on the way. */
  datatype Resolved<T> = Value(v: T) | TypeError

  /** `o.orderindex === value`: only a number can equal the numeric `orderindex`. */
  predicate OrderIndexIs(o: DropOption, v: FieldValue)
  {
    v.Num? && v.n == o.orderindex
  }

  /** The onboarding status shown for the field. A `drop_down` field is resolved against its
      option catalog by `orderindex`, and reading the catalog of a drop-down that has none
      raises; any other field shows its value, or `Ongoing` when the field is absent or its
      value is falsy. */
  function Onboarding(field: Option<CustomField>): (r: Resolved<FieldValue>)
    ensures r.TypeError? <==> field.Some? && field.value.fieldType == "drop_down" && field.value.options.None?
    ensures r.Value? ==> Truthy(r.v)
    ensures field.None? ==> r == Value(Str("Ongoing"))
    ensures field.Some? && field.value.fieldType != "drop_down" ==>
      r == Value(if Truthy(field.value.value) then field.value.value else Str("Ongoing"))
    ensures field.Some? && field.value.fieldType == "drop_down" && field.value.options.Some?
            && (forall j :: 0 <= j < |field.value.options.value| ==> !OrderIndexIs(field.value.options.value[j], field.value.value))
            ==> r == Value(Str("N/A"))
  {
    match field
    case None => Value(Str("Ongoing"))
    case Some(f) =>
      if f.fieldType == "drop_down" then
        match f.options
        case None => TypeError
        case Some(opts) =>
          match FindIndex(opts, o => OrderIndexIs(o, f.value))
          case Some(j) => if opts[j].name != "" then Value(Str(opts[j].name)) else Value(Str("N/A"))
          case None => Value(Str("N/A"))
      else if Truthy(f.value) then Value(f.value)
      else Value(Str("Ongoing"))
  }

  /** `field?.value?.map(u => u.username).join(', ') || 'N/A'`: the usernames joined with
      `, `, or `N/A` when the field or its value is missing or the joined text is empty.
      A number or a string has no `map`, so calling it raises. */
  function StaffNames(field: Option<CustomField>): (r: Resolved<string>)
    ensures r.TypeError? <==> field.Some? && (field.value.value.Num? || field.value.value.Str?)
    ensures r.Value? ==> r.v != ""
    ensures field.None? || IsNullish(field.value.value) ==> r == Value("N/A")
    ensures field.Some? && field.value.value.Users? && Join(field.value.value.usernames, ", ") != "" ==>
      r == Value(Join(field.value.value.usernames, ", "))
  {
    match field
    case None => Value("N/A")
    case Some(f) =>
      match f.value
      case Undefined => Value("N/A")
      case Null => Value("N/A")
      case Num(_) => TypeError
      case Str(_) => TypeError
      case Users(us) =>
        var joined := Join(us, ", ");
        if joined != "" then Value(joined) else Value("N/A")
  }

  /** The usernames of a users field show as `N/A` exactly when the field lists nobody, or
      only one user whose username is empty. */
  lemma StaffNamesNotAvailable(f: CustomField, us: seq<string>)
    requires f.value == Users(us)
    ensures StaffNames(Some(f)) == Value("N/A") <==> us == [] || us == [""] || Join(us, ", ") == "N/A"
    ensures StaffNames(Some(f)) != Value("N/A") ==> StaffNames(Some(f)) == Value(Join(us, ", "))
  {
    if |us| >= 2 {
      assert Join(us, ", ") == us[0] + ", " + Join(us[1..], ", ");
      assert |Join(us, ", ")| >= 2;
    }
  }

  /** The record shown in the client bar. */
  datatype ClientInfo = ClientInfo(onboarding: FieldValue, account: string, gt: string, gc: string)

  /** The object literal built from one macro task: the four role fields, each resolved;
      it raises when any of the four resolutions raises. */
  function ExtractInfo(task: Task): (r: Resolved<ClientInfo>)
    ensures r.TypeError? <==>
      || Onboarding(RoleField(task, OnboardingNeedles)).TypeError?
      || StaffNames(RoleField(task, AccountNeedles)).TypeError?
      || StaffNames(RoleField(task, TrafficNeedles)).TypeError?
      || StaffNames(RoleField(task, ContentNeedles)).TypeError?
    ensures r.Value? ==> Truthy(r.v.onboarding) && r.v.account != "" && r.v.gt != "" && r.v.gc != ""
    ensures r.Value? ==>
      r.v == ClientInfo(
        Onboarding(RoleField(task, OnboardingNeedles)).v,
        StaffNames(RoleField(task, AccountNeedles)).v,
        StaffNames(RoleField(task, TrafficNeedles)).v,
        StaffNames(RoleField(task, ContentNeedles)).v)
  {
    var onboarding := Onboarding(RoleField(task, OnboardingNeedles));
    var account := StaffNames(RoleField(task, AccountNeedles));
    var gt := StaffNames(RoleField(task, TrafficNeedles));
    var gc := StaffNames(RoleField(task, ContentNeedles));
    if onboarding.TypeError? || account.TypeError? || gt.TypeError? || gc.TypeError? then TypeError
    else Value(ClientInfo(onboarding.v, account.v, gt.v, gc.v))
  }

  /** A task without custom fields shows every default: `Ongoing` and three `N/A`. */
  lemma ExtractInfoWithoutFields(task: Task)
    requires task.customFields.None?
    ensures ExtractInfo(task) == Value(ClientInfo(Str("Ongoing"), "N/A", "N/A", "N/A"))
  {
  }

  /** A drop-down onboarding field shows the name of the first option whose `orderindex`
      equals the value, when that name is not empty. */
  lemma OnboardingFromCatalog(f: CustomField, j: nat)
    requires f.fieldType == "drop_down" && f.options.Some?
    requires j < |f.options.value| && OrderIndexIs(f.options.value[j], f.value)
    requires forall k :: 0 <= k < j ==> !OrderIndexIs(f.options.value[k], f.value)
    ensures Onboarding(Some(f)) == Value(Str(if f.options.value[j].name != "" then f.options.value[j].name else "N/A"))
  {
    FindIndexIsFirst(f.options.value, o => OrderIndexIs(o, f.value), j);
  }

  /** A drop-down value that is not a number matches no option and shows `N/A`. */
  lemma OnboardingTextDropDown(f: CustomField)
    requires f.fieldType == "drop_down" && f.options.Some?
    requires !f.value.Num?
    ensures Onboarding(Some(f)) == Value(Str("N/A"))
  {
    var opts := f.options.value;
    assert forall j :: 0 <= j < |opts| ==> !OrderIndexIs(opts[j], f.value);
  }

  // ================================================================ selected client

  /** The outcome of the info step of the selection effect. */
  datatype InfoOutcome = NoInfo | Info(info: ClientInfo) | Throws

  /** `macroTasks.find(t => t.name === selectedClientName)`, then the extraction. */
  function ClientInfoFor(macroTasks: seq<Task>, selected: string): (r: InfoOutcome)
    ensures r.NoInfo? <==> forall k :: 0 <= k < |macroTasks| ==> macroTasks[k].name != selected
    ensures !r.NoInfo? ==>
      exists i ::
        && 0 <= i < |macroTasks| && macroTasks[i].name == selected
        && (forall k :: 0 <= k < i ==> macroTasks[k].name != selected)
        && (r.Throws? <==> ExtractInfo(macroTasks[i]).TypeError?)
        && (r.Info? ==> ExtractInfo(macroTasks[i]) == Value(r.info))
  {
    match FindIndex(macroTasks, (t: Task) => t.name == selected)
    case None => NoInfo
    case Some(i) =>
      match ExtractInfo(macroTasks[i])
      case TypeError => Throws
      case Value(info) => Info(info)
  }

  // ================================================================ list id

  /** `map[key]` on an insertion-ordered object: the value of the entry named `key`. */
  function Lookup(m: seq<(string, string)>, key: string): (r: Option<string>)
    ensures r.Some? <==> exists i :: 0 <= i < |m| && m[i].0 == key
    ensures r.Some? ==> exists i :: 0 <= i < |m| && m[i] == (key, r.value)
  {
    if |m| == 0 then None
    else if m[0].0 == key then Some(m[0].1)
    else
      var rest := Lookup(m[1..], key);
      assert forall i :: 0 <= i < |m| - 1 ==> m[1..][i] == m[i + 1];
      rest
  }

  /** The lower-cased key is contained in the lower-cased name, or contains it. */
  predicate KeyMatches(name: string, key: string)
  {
    Contains(ToLower(name), ToLower(key)) || Contains(ToLower(key), ToLower(name))
  }

  /** `i` is the first map entry whose key matches the name. */
  predicate FirstMatchingKey(m: seq<(string, string)>, name: string, i: int)
  {
    0 <= i < |m| && KeyMatches(name, m[i].0) && forall k :: 0 <= k < i ==> !KeyMatches(name, m[k].0)
  }

  /** An entry's value, or nothing when the value is empty (an empty id counts as missing). */
  function NonEmpty(v: Option<string>): Option<string>
  {
    if v.Some? && v.value != "" then v else None
  }

  /** The list id of the selected client: the exact entry when its id is not empty;
      otherwise the entry of the first key, in key order, whose lower-cased text contains
      or is contained in the lower-cased client name, unless that key is empty (a falsy
      key is not followed) or its id is empty. */
  function ResolveListId(m: seq<(string, string)>, name: string): (r: Option<string>)
    ensures r.Some? ==> r.value != ""
    ensures r.Some? ==>
      (|| (exists i :: 0 <= i < |m| && m[i] == (name, r.value))
       || (exists i :: FirstMatchingKey(m, name, i) && m[i].0 != "" && m[i].1 == r.value))
  {
    var exact := NonEmpty(Lookup(m, name));
    if exact.Some? then exact
    else
      match FindIndex(m, (e: (string, string)) => KeyMatches(name, e.0))
      case None => None
      case Some(i) =>
        assert FirstMatchingKey(m, name, i);
        if m[i].0 != "" then NonEmpty(Some(m[i].1)) else None
  }

  /** An exact entry with a non-empty id wins over every partial match. */
  lemma ResolveExact(m: seq<(string, string)>, name: string, i: nat)
    requires i < |m| && m[i].0 == name && m[i].1 != ""
    requires forall k :: 0 <= k < i ==> m[k].0 != name
    ensures ResolveListId(m, name) == Some(m[i].1)
  {
    LookupFirst(m, name, i);
  }

  lemma {:induction false} LookupFirst(m: seq<(string, string)>, key: string, i: nat)
    requires i < |m| && m[i].0 == key
    requires forall k :: 0 <= k < i ==> m[k].0 != key
    ensures Lookup(m, key) == Some(m[i].1)
  {
    if i > 0 {
      LookupFirst(m[1..], key, i - 1);
    }
  }

  /** Without a usable exact entry, the id is that of the first matching key, when both
      that key and its id are not empty; and nothing when no key matches. */
  lemma ResolvePartial(m: seq<(string, string)>, name: string)
    requires NonEmpty(Lookup(m, name)).None?
    ensures (forall k :: 0 <= k < |m| ==> !KeyMatches(name, m[k].0)) ==> ResolveListId(m, name).None?
    ensures forall i :: FirstMatchingKey(m, name, i) ==>
              ResolveListId(m, name) == (if m[i].0 != "" && m[i].1 != "" then Some(m[i].1) else None)
  {
    forall i | FirstMatchingKey(m, name, i)
      ensures ResolveListId(m, name) == (if m[i].0 != "" && m[i].1 != "" then Some(m[i].1) else None)
    {
      FindIndexIsFirst(m, (e: (string, string)) => KeyMatches(name, e.0), i);
    }
  }

  /** An empty key matches every name, so when it comes before every other matching key it
      hides them all: the client gets no list even though a later key names it. */
  lemma EmptyKeyShadows()
    ensures ResolveListId([("", "900"), ("acme", "901")], "Acme Ltd") == None
  {
    var m := [("", "900"), ("acme", "901")];
    assert !Contains("acme", "acme ltd");
    assert m[0].0 != "Acme Ltd" && m[1].0 != "Acme Ltd";
    assert Lookup(m, "Acme Ltd").None?;
    assert KeyMatches("Acme Ltd", "") by {
      assert OccursAt(ToLower("Acme Ltd"), ToLower(""), 0);
    }
    ResolvePartial(m, "Acme Ltd");
    assert FirstMatchingKey(m, "Acme Ltd", 0);
  }

  // ================================================================ page state

  /** The state of the client page the two effects write. */
  datatype ViewState = ViewState(
    selected: string,
    macroTasks: seq<Task>,
    clientInfo: Option<ClientInfo>,
    operationalTasks: seq<Task>)

  /** The mount effect: the macro tasks are stored, and the first one becomes the selected
      client when there is one. */
  function MacroTasksLoaded(st: ViewState, tasks: seq<Task>): (r: ViewState)
    ensures r.macroTasks == tasks
    ensures r.selected == if |tasks| > 0 then tasks[0].name else st.selected
    ensures r.clientInfo == st.clientInfo && r.operationalTasks == st.operationalTasks
  {
    var loaded := st.(macroTasks := tasks);
    if |tasks| > 0 then loaded.(selected := tasks[0].name) else loaded
  }

  /** The outcome of the selection effect: the new state, or the `TypeError` that stops it
      before any state is written. */
  datatype EffectOutcome = Updated(state: ViewState) | Crashed

  /** The selection effect. An empty selection clears the client info and the operational
      tasks. Otherwise the client info is that of the first macro task with exactly the
      selected name (or none), and the operational tasks are those of the resolved list,
      or none when no list id resolves. */
  function SelectionEffect(st: ViewState, listMap: seq<(string, string)>, server: ClickUpService.Server): (r: EffectOutcome)
    ensures st.selected == "" ==> r == Updated(st.(clientInfo := None, operationalTasks := []))
    ensures r.Crashed? <==> ClientInfoFor(st.macroTasks, st.selected).Throws? && st.selected != ""
    ensures r.Updated? ==> r.state.selected == st.selected && r.state.macroTasks == st.macroTasks
    ensures r.Updated? && st.selected != "" ==>
      && r.state.clientInfo == (match ClientInfoFor(st.macroTasks, st.selected)
                                case Info(info) => Some(info)
                                case _ => None)
      && r.state.operationalTasks == OperationalTasks(listMap, st.selected, server)
  {
    if st.selected == "" then Updated(st.(clientInfo := None, operationalTasks := []))
    else
      match ClientInfoFor(st.macroTasks, st.selected)
      case Throws => Crashed
      case NoInfo => Updated(st.(clientInfo := None, operationalTasks := OperationalTasks(listMap, st.selected, server)))
      case Info(info) => Updated(st.(clientInfo := Some(info), operationalTasks := OperationalTasks(listMap, st.selected, server)))
  }

  /** The operational tasks of the client: its list's tasks, or none without a list id. */
  function OperationalTasks(listMap: seq<(string, string)>, selected: string, server: ClickUpService.Server): (r: seq<Task>)
    ensures ResolveListId(listMap, selected).None? ==> r == []
    ensures ResolveListId(listMap, selected).Some? ==>
      r == ClickUpService.Collected(server(ClickUpService.TaskEndpoint(ResolveListId(listMap, selected).value)))
  {
    match ResolveListId(listMap, selected)
    case Some(id) => ClickUpService.Collected(server(ClickUpService.TaskEndpoint(id)))
    case None => []
  }

  /** After the macro tasks arrive, the page selects the first client, and its info is that
      of the first macro task, which carries that name. */
  lemma FirstClientSelected(st: ViewState, tasks: seq<Task>, listMap: seq<(string, string)>, server: ClickUpService.Server)
    requires |tasks| > 0 && tasks[0].name != ""
    requires ExtractInfo(tasks[0]).Value?
    ensures SelectionEffect(MacroTasksLoaded(st, tasks), listMap, server).Updated?
    ensures SelectionEffect(MacroTasksLoaded(st, tasks), listMap, server).state.clientInfo
            == Some(ExtractInfo(tasks[0]).v)
  {
    FindIndexIsFirst(tasks, (t: Task) => t.name == tasks[0].name, 0);
  }
}
