/** scripts/validate-registry.py: the checks run over a loaded registry
    document. Python's `in` and indexing are applied to whatever JSON value the
    document holds, so a document of the wrong shape can make the script raise
    instead of reporting; that outcome is modelled as well. Whether an agent's
    file exists is a parameter. */
module RegistryCheck {
  import opened Wrappers
  import opened Json
  import opened Catalogue

  /** The errors the validator reports. */
  datatype Problem =
    | MissingVersion
    | VersionNotString
    | MissingAgents
    | AgentsNotObject
    | MissingField(agent: string, field: string)
    | InvalidModel(agent: string, model: Json)
    | FileNotFound(agent: string, path: string)

  /** A warning: a recommended field is absent. */
  datatype Notice = MissingRecommended(agent: string, field: string)

  /** How a run ends: the document could not be loaded; the check stopped early
      (missing or malformed `agents`); it went through every agent; or an
      operation raised `TypeError`. */
  datatype Outcome =
    | Unloadable
    | Stopped(problems: seq<Problem>)
    | Finished(problems: seq<Problem>, notices: seq<Notice>)
    | Raised

  const RequiredFields: seq<string> := ["name", "path"]
  const ValidModels: seq<Json> := [JString("opus"), JString("sonnet"), JString("inherit")]

  /** The errors and warnings of one agent entry, or `None` when a check on it
      raises. */
  function CheckAgent(id: string, data: Json, fileExists: string -> bool): (r: Option<Report>)
    ensures data.JNull? || data.JBool? || data.JNumber? ==> r.None?
    ensures r.Some? ==> forall k :: 0 <= k < |r.value.0| ==> AgentProblem(r.value.0[k]) && r.value.0[k].agent == id
    ensures r.Some? ==> forall k :: 0 <= k < |r.value.1| ==> r.value.1[k].agent == id
    ensures r.Some? ==> |r.value.0| <= 4 && |r.value.1| <= 2
  {
    // `in` raises on a scalar before anything is recorded, and never on a
    // dict, a string or a list.
    if data.JNull? || data.JBool? || data.JNumber? then None
    else
      var hasName := In("name", data).value;
      var hasPath := In("path", data).value;
      var missing := (if hasName then [] else [MissingField(id, "name")])
                     + (if hasPath then [] else [MissingField(id, "path")]);
      var hasModel := In("model", data).value;
      var modelProblems :- ModelProblems(id, data, hasModel);
      var pathProblems :- PathProblems(id, data, hasPath, fileExists);
      var hasDescription := In("description", data).value;
      var notices := (if hasModel then [] else [MissingRecommended(id, "model")])
                     + (if hasDescription then [] else [MissingRecommended(id, "description")]);
      Some((missing + modelProblems + pathProblems, notices))
  }

  /** An error about one agent entry, as opposed to the document-level ones. */
  predicate AgentProblem(p: Problem) {
    p.MissingField? || p.InvalidModel? || p.FileNotFound?
  }

  /** `if 'model' in agent_data: if agent_data['model'] not in valid_models: ...` */
  function ModelProblems(id: string, data: Json, hasModel: bool): Option<seq<Problem>> {
    if !hasModel then Some([])
    else
      var model :- Index(data, "model");
      Some(if model in ValidModels then [] else [InvalidModel(id, model)])
  }

  /** `if 'path' in agent_data: ... if not agent_file.exists(): ...`; joining a
      non-string onto a `Path` raises. */
  function PathProblems(id: string, data: Json, hasPath: bool, fileExists: string -> bool): Option<seq<Problem>> {
    if !hasPath then Some([])
    else
      var path :- Index(data, "path");
      if path.JString? then Some(if fileExists(path.str) then [] else [FileNotFound(id, path.str)])
      else None
  }

  /** The errors and warnings collected so far. */
  type Report = (seq<Problem>, seq<Notice>)

  /** One agent's report followed by the rest; a raise anywhere is a raise. */
  function Combine(first: Option<Report>, rest: Option<Report>): Option<Report> {
    if first.None? || rest.None? then None
    else Some((first.value.0 + rest.value.0, first.value.1 + rest.value.1))
  }

  /** The loop over `registry['agents'].items()` in document order. */
  function CheckAgents(agents: seq<(string, Json)>, fileExists: string -> bool): Option<Report>
    decreases |agents|
  {
    if |agents| == 0 then Some(([], []))
    else Combine(CheckAgent(agents[0].0, agents[0].1, fileExists), CheckAgents(agents[1..], fileExists))
  }

  /** The version checks: a missing `version`, or one that is not a string. */
  function VersionProblems(registry: Json): Option<seq<Problem>> {
    var hasVersion :- In("version", registry);
    if !hasVersion then Some([MissingVersion])
    else
      var version :- Index(registry, "version");
      Some(if version.JString? then [] else [VersionNotString])
  }

  /** `validate_registry` on the loaded document `doc` (`None` when the file is
      missing or not JSON). */
  function Validate(doc: Option<Json>, fileExists: string -> bool): Outcome {
    match doc
    case None => Unloadable
    case Some(registry) =>
      match VersionProblems(registry)
      case None => Raised
      case Some(versionProblems) =>
        match In("agents", registry)
        case None => Raised
        case Some(false) => Stopped(versionProblems + [MissingAgents])
        case Some(true) =>
          match Index(registry, "agents")
          case None => Raised
          case Some(agents) =>
            if !agents.JObject? then Stopped(versionProblems + [AgentsNotObject])
            else
              match CheckAgents(agents.members, fileExists)
              case None => Raised
              case Some((problems, notices)) => Finished(versionProblems + problems, notices)
  }

  /** The value `validate_registry` returns, or `None` when it raises. */
  function ValidateRegistry(doc: Option<Json>, fileExists: string -> bool): (r: Option<bool>)
    ensures r == Some(true) <==> Validate(doc, fileExists).Finished? && Validate(doc, fileExists).problems == []
    ensures Validate(doc, fileExists).Stopped? || Validate(doc, fileExists).Unloadable? ==> r == Some(false)
    ensures r.None? <==> Validate(doc, fileExists).Raised?
  {
    match Validate(doc, fileExists)
    case Raised => None
    case Finished(problems, _) => Some(|problems| == 0)
    case _ => Some(false)
  }

  /** A registry object without `agents`, or whose `agents` is not an object,
      stops the check and fails it, after the version checks. */
  lemma StopsOnBadAgents(members: seq<(string, Json)>, fileExists: string -> bool)
    requires Lookup(members, "agents").None? || !Lookup(members, "agents").value.JObject?
    ensures var o := Validate(Some(JObject(members)), fileExists);
            && o.Stopped?
            && o.problems[|o.problems| - 1] == (if Lookup(members, "agents").None? then MissingAgents else AgentsNotObject)
            && (MissingVersion in o.problems <==> Lookup(members, "version").None?)
            && ValidateRegistry(Some(JObject(members)), fileExists) == Some(false)
  {
  }

  /** A document that is a number, a boolean or `null` makes the first
      membership test raise. */
  lemma ScalarDocumentRaises(doc: Json, fileExists: string -> bool)
    requires doc.JNull? || doc.JBool? || doc.JNumber?
    ensures Validate(Some(doc), fileExists) == Raised
    ensures ValidateRegistry(Some(doc), fileExists).None?
  {
  }

  /** The errors and warnings of a list of agents are those of its parts,
      in order. */
  lemma {:induction false} CheckAgentsAppend(xs: seq<(string, Json)>, ys: seq<(string, Json)>, fileExists: string -> bool)
    ensures CheckAgents(xs + ys, fileExists) == Combine(CheckAgents(xs, fileExists), CheckAgents(ys, fileExists))
    decreases |xs|
  {
    var b := CheckAgents(ys, fileExists);
    if |xs| == 0 {
      assert xs + ys == ys;
      if b.Some? {
        assert [] + b.value.0 == b.value.0;
        assert [] + b.value.1 == b.value.1;
      }
    } else {
      assert (xs + ys)[0] == xs[0];
      assert (xs + ys)[1..] == xs[1..] + ys;
      CheckAgentsAppend(xs[1..], ys, fileExists);
      var h := CheckAgent(xs[0].0, xs[0].1, fileExists);
      var t := CheckAgents(xs[1..], fileExists);
      CombineAssociative(h, t, b);
    }
  }

  lemma CombineAssociative(a: Option<Report>, b: Option<Report>, c: Option<Report>)
    ensures Combine(a, Combine(b, c)) == Combine(Combine(a, b), c)
  {
    if a.Some? && b.Some? && c.Some? {
      assert a.value.0 + (b.value.0 + c.value.0) == (a.value.0 + b.value.0) + c.value.0;
      assert a.value.1 + (b.value.1 + c.value.1) == (a.value.1 + b.value.1) + c.value.1;
    }
  }

  /** The errors of an agent object, in report order. */
  function ObjectProblems(id: string, members: seq<(string, Json)>, fileExists: string -> bool): seq<Problem>
    requires Lookup(members, "path").Some? ==> Lookup(members, "path").value.JString?
  {
    var path, model := Lookup(members, "path"), Lookup(members, "model");
    (if Lookup(members, "name").Some? then [] else [MissingField(id, "name")])
    + (if path.Some? then [] else [MissingField(id, "path")])
    + (if model.None? || model.value in ValidModels then [] else [InvalidModel(id, model.value)])
    + (if path.None? || fileExists(path.value.str) then [] else [FileNotFound(id, path.value.str)])
  }

  /** The warnings of an agent object, in report order. */
  function ObjectNotices(id: string, members: seq<(string, Json)>): seq<Notice> {
    (if Lookup(members, "model").Some? then [] else [MissingRecommended(id, "model")])
    + (if Lookup(members, "description").Some? then [] else [MissingRecommended(id, "description")])
  }

  /** On an object with a string path (or none) no check raises. */
  lemma CheckAgentOnObject(id: string, members: seq<(string, Json)>, fileExists: string -> bool)
    requires Lookup(members, "path").Some? ==> Lookup(members, "path").value.JString?
    ensures CheckAgent(id, JObject(members), fileExists) ==
              Some((ObjectProblems(id, members, fileExists), ObjectNotices(id, members)))
  {
    var data := JObject(members);
    var path, model := Lookup(members, "path"), Lookup(members, "model");
    var modelProblems := if model.None? || model.value in ValidModels then [] else [InvalidModel(id, model.value)];
    var pathProblems := if path.None? || fileExists(path.value.str) then [] else [FileNotFound(id, path.value.str)];
    assert ModelProblems(id, data, model.Some?) == Some(modelProblems);
    assert PathProblems(id, data, path.Some?, fileExists) == Some(pathProblems);
  }

  /** An agent object fails to check out exactly when it lacks `name` or
      `path`, names a model outside `opus`, `sonnet`, `inherit`, or points to
      a missing file; it draws a warning exactly for each of `model` and
      `description` it lacks. */
  lemma CheckAgentObject(id: string, members: seq<(string, Json)>, fileExists: string -> bool)
    requires Lookup(members, "path").Some? ==> Lookup(members, "path").value.JString?
    ensures var r := CheckAgent(id, JObject(members), fileExists);
            && r.Some?
            && (MissingField(id, "name") in r.value.0 <==> Lookup(members, "name").None?)
            && (MissingField(id, "path") in r.value.0 <==> Lookup(members, "path").None?)
            && multiset(r.value.0)[MissingField(id, "name")] == (if Lookup(members, "name").None? then 1 else 0)
            && multiset(r.value.0)[MissingField(id, "path")] == (if Lookup(members, "path").None? then 1 else 0)
            && (r.value.0 == [] <==> AgentOk(members, fileExists))
            && (MissingRecommended(id, "model") in r.value.1 <==> Lookup(members, "model").None?)
            && (MissingRecommended(id, "description") in r.value.1 <==> Lookup(members, "description").None?)
            && (forall n :: n in r.value.1 ==> n.agent == id && n.field in ["model", "description"])
  {
    CheckAgentOnObject(id, members, fileExists);
    ObjectProblemsFacts(id, members, fileExists);
    ObjectProblemsCounts(id, members, fileExists);
    ObjectNoticesFacts(id, members);
  }

  lemma ObjectProblemsFacts(id: string, members: seq<(string, Json)>, fileExists: string -> bool)
    requires Lookup(members, "path").Some? ==> Lookup(members, "path").value.JString?
    ensures var ps := ObjectProblems(id, members, fileExists);
            && (MissingField(id, "name") in ps <==> Lookup(members, "name").None?)
            && (MissingField(id, "path") in ps <==> Lookup(members, "path").None?)
            && (ps == [] <==> AgentOk(members, fileExists))
  {
    var path, model := Lookup(members, "path"), Lookup(members, "model");
    var a := if Lookup(members, "name").Some? then [] else [MissingField(id, "name")];
    var b := if path.Some? then [] else [MissingField(id, "path")];
    var c := if model.None? || model.value in ValidModels then [] else [InvalidModel(id, model.value)];
    var d := if path.None? || fileExists(path.value.str) then [] else [FileNotFound(id, path.value.str)];
    var ps := ObjectProblems(id, members, fileExists);
    assert ps == a + b + c + d;
    assert forall x :: x in ps <==> x in a || x in b || x in c || x in d;
    assert ps == [] <==> a == [] && b == [] && c == [] && d == [];
  }

  /** Each missing required field is reported once, never twice. */
  lemma ObjectProblemsCounts(id: string, members: seq<(string, Json)>, fileExists: string -> bool)
    requires Lookup(members, "path").Some? ==> Lookup(members, "path").value.JString?
    ensures var ps := ObjectProblems(id, members, fileExists);
            && multiset(ps)[MissingField(id, "name")] == (if Lookup(members, "name").None? then 1 else 0)
            && multiset(ps)[MissingField(id, "path")] == (if Lookup(members, "path").None? then 1 else 0)
  {
    var path, model := Lookup(members, "path"), Lookup(members, "model");
    var c := if model.None? || model.value in ValidModels then [] else [InvalidModel(id, model.value)];
    var d := if path.None? || fileExists(path.value.str) then [] else [FileNotFound(id, path.value.str)];
    RequiredCounts(id, Lookup(members, "name").Some?, path.Some?, c, d, ObjectProblems(id, members, fileExists));
  }

  /** The required-field errors followed by errors of other kinds hold each
      missing field once. */
  lemma RequiredCounts(id: string, hasName: bool, hasPath: bool, c: seq<Problem>, d: seq<Problem>, ps: seq<Problem>)
    requires ps == (if hasName then [] else [MissingField(id, "name")])
                   + (if hasPath then [] else [MissingField(id, "path")]) + c + d
    requires forall x :: x in c ==> !x.MissingField?
    requires forall x :: x in d ==> !x.MissingField?
    ensures multiset(ps)[MissingField(id, "name")] == (if hasName then 0 else 1)
    ensures multiset(ps)[MissingField(id, "path")] == (if hasPath then 0 else 1)
  {
    var a := if hasName then [] else [MissingField(id, "name")];
    var b := if hasPath then [] else [MissingField(id, "path")];
    assert MissingField(id, "name") !in c && MissingField(id, "path") !in c;
    assert MissingField(id, "name") !in d && MissingField(id, "path") !in d;
    assert multiset(a + b + c + d) == multiset(a) + multiset(b) + multiset(c) + multiset(d);
  }

  lemma ObjectNoticesFacts(id: string, members: seq<(string, Json)>)
    ensures var ns := ObjectNotices(id, members);
            && (MissingRecommended(id, "model") in ns <==> Lookup(members, "model").None?)
            && (MissingRecommended(id, "description") in ns <==> Lookup(members, "description").None?)
            && (forall n :: n in ns ==> n.agent == id && n.field in ["model", "description"])
  {
    var a := if Lookup(members, "model").Some? then [] else [MissingRecommended(id, "model")];
    var b := if Lookup(members, "description").Some? then [] else [MissingRecommended(id, "description")];
    assert ObjectNotices(id, members) == a + b;
    assert forall x :: x in a + b <==> x in a || x in b;
  }

  /** An agent entry the validator accepts. */
  predicate AgentOk(members: seq<(string, Json)>, fileExists: string -> bool) {
    && Lookup(members, "name").Some?
    && Lookup(members, "path").Some?
    && (Lookup(members, "model").Some? ==> Lookup(members, "model").value in ValidModels)
    && (Lookup(members, "path").value.JString? ==> fileExists(Lookup(members, "path").value.str))
  }

  /** Agent entries that are objects with string paths. */
  predicate WellShaped(agents: seq<(string, Json)>) {
    forall i :: 0 <= i < |agents| ==>
      && agents[i].1.JObject?
      && (Lookup(agents[i].1.members, "path").Some? ==> Lookup(agents[i].1.members, "path").value.JString?)
  }

  /** For well-shaped agent entries the loop never raises, and it reports no
      error exactly when every entry is accepted. */
  lemma {:induction false} CheckAgentsPass(agents: seq<(string, Json)>, fileExists: string -> bool)
    requires WellShaped(agents)
    ensures CheckAgents(agents, fileExists).Some?
    ensures CheckAgents(agents, fileExists).value.0 == [] <==>
              forall i :: 0 <= i < |agents| ==> AgentOk(agents[i].1.members, fileExists)
    decreases |agents|
  {
    if |agents| > 0 {
      AllOkSplit(agents, fileExists);
      CheckAgentsPass(agents[1..], fileExists);
      CheckAgentOk(agents[0].0, agents[0].1.members, fileExists);
    }
  }

  /** The first entry and the rest, for the induction over the entries. */
  lemma AllOkSplit(agents: seq<(string, Json)>, fileExists: string -> bool)
    requires WellShaped(agents) && |agents| > 0
    ensures WellShaped(agents[1..])
    ensures (forall i :: 0 <= i < |agents| ==> AgentOk(agents[i].1.members, fileExists)) <==>
              && AgentOk(agents[0].1.members, fileExists)
              && forall i :: 0 <= i < |agents[1..]| ==> AgentOk(agents[1..][i].1.members, fileExists)
  {
    assert forall i :: 0 <= i < |agents[1..]| ==> agents[1..][i] == agents[i + 1];
  }

  /** An agent object with a string path (or none) does not raise, and it
      draws no error exactly when the validator accepts it. */
  lemma CheckAgentOk(id: string, members: seq<(string, Json)>, fileExists: string -> bool)
    requires Lookup(members, "path").Some? ==> Lookup(members, "path").value.JString?
    ensures CheckAgent(id, JObject(members), fileExists).Some?
    ensures CheckAgent(id, JObject(members), fileExists).value.0 == [] <==> AgentOk(members, fileExists)
  {
    CheckAgentOnObject(id, members, fileExists);
    ObjectProblemsFacts(id, members, fileExists);
  }

  /** A missing or non-string `version` is one error at the head of the list;
      it does not stop the check, which still goes through every agent. */
  lemma VersionErrorContinues(members: seq<(string, Json)>, fileExists: string -> bool)
    requires Lookup(members, "agents").Some? && Lookup(members, "agents").value.JObject?
    requires CheckAgents(Lookup(members, "agents").value.members, fileExists).Some?
    ensures var report := CheckAgents(Lookup(members, "agents").value.members, fileExists).value;
            var version := Lookup(members, "version");
            Validate(Some(JObject(members)), fileExists) ==
              Finished((if version.None? then [MissingVersion]
                        else if !version.value.JString? then [VersionNotString]
                        else []) + report.0,
                       report.1)
  {
    var registry := JObject(members);
    var version := Lookup(members, "version");
    var expected := if version.None? then [MissingVersion] else if !version.value.JString? then [VersionNotString] else [];
    assert VersionProblems(registry) == Some(expected);
    assert In("agents", registry) == Some(true);
    assert Index(registry, "agents") == Lookup(members, "agents");
  }

  /** A registry object with well-shaped `agents` passes exactly when its
      `version` is a string and every agent entry is accepted; a bad version
      fails it while the agents are still checked. */
  lemma ValidatePasses(members: seq<(string, Json)>, fileExists: string -> bool)
    requires Lookup(members, "agents").Some? && Lookup(members, "agents").value.JObject?
    requires WellShaped(Lookup(members, "agents").value.members)
    ensures var agents := Lookup(members, "agents").value.members;
            ValidateRegistry(Some(JObject(members)), fileExists) ==
              Some(&& Lookup(members, "version").Some? && Lookup(members, "version").value.JString?
                   && forall i :: 0 <= i < |agents| ==> AgentOk(agents[i].1.members, fileExists))
  {
    var agents := Lookup(members, "agents").value;
    CheckAgentsPass(agents.members, fileExists);
    VersionErrorContinues(members, fileExists);
  }

  /** The JSON object `generate_registry` writes for an entry: `name`, `path`,
      then whichever of `model`, `color`, `description` are present. */
  function EntryJson(e: RegistryEntry): Json {
    JObject([("name", JString(e.name))] + ([("path", JString(e.path))]
            + (Optional("model", e.model) + (Optional("color", e.color) + Optional("description", e.description)))))
  }

  /** The member `key` when the entry has a value for it. */
  function Optional(key: string, value: Option<string>): seq<(string, Json)> {
    if value.Some? then [(key, JString(value.value))] else []
  }

  /** `Lookup` past a leading member. */
  lemma LookupCons(member: (string, Json), rest: seq<(string, Json)>, key: string)
    ensures Lookup([member] + rest, key) == if member.0 == key then Some(member.1) else Lookup(rest, key)
  {
    assert ([member] + rest)[1..] == rest;
  }

  /** `Lookup` past an optional member. */
  lemma LookupOptional(k: string, value: Option<string>, rest: seq<(string, Json)>, key: string)
    ensures Lookup(Optional(k, value) + rest, key) ==
              if k == key && value.Some? then Some(JString(value.value)) else Lookup(rest, key)
  {
    if value.Some? {
      LookupCons((k, JString(value.value)), rest, key);
    } else {
      assert Optional(k, value) + rest == rest;
    }
  }

  /** The registry document written for `version` and the entries `agents`, in
      insertion order. */
  function RegistryJson(version: string, agents: seq<(string, RegistryEntry)>): Json {
    JObject([("version", JString(version)),
             ("agents", JObject(seq(|agents|, i requires 0 <= i < |agents| => (agents[i].0, EntryJson(agents[i].1)))))])
  }

  /** A generated entry is accepted exactly when its model, if any, is one of
      `opus`, `sonnet`, `inherit` and its file exists. */
  lemma GeneratedEntryOk(e: RegistryEntry, fileExists: string -> bool)
    ensures EntryJson(e).JObject?
    ensures Lookup(EntryJson(e).members, "path") == Some(JString(e.path))
    ensures AgentOk(EntryJson(e).members, fileExists) <==>
              (e.model.Some? ==> e.model.value in ["opus", "sonnet", "inherit"]) && fileExists(e.path)
  {
    EntryLookups(e);
    if e.model.Some? {
      ValidModelString(e.model.value);
    }
  }

  /** A string model is valid exactly when it is one of the three names. */
  lemma ValidModelString(m: string)
    ensures JString(m) in ValidModels <==> m in ["opus", "sonnet", "inherit"]
  {
  }

  /** What the validator looks up in a generated entry. */
  lemma EntryLookups(e: RegistryEntry)
    ensures var ms := EntryJson(e).members;
            && Lookup(ms, "name") == Some(JString(e.name))
            && Lookup(ms, "path") == Some(JString(e.path))
            && Lookup(ms, "model") == if e.model.Some? then Some(JString(e.model.value)) else None
  {
    var last := Optional("description", e.description);
    var rest := Optional("color", e.color) + last;
    var afterPath := Optional("model", e.model) + rest;
    LookupCons(("name", JString(e.name)), [("path", JString(e.path))] + afterPath, "name");
    LookupCons(("name", JString(e.name)), [("path", JString(e.path))] + afterPath, "path");
    LookupCons(("path", JString(e.path)), afterPath, "path");
    LookupCons(("name", JString(e.name)), [("path", JString(e.path))] + afterPath, "model");
    LookupCons(("path", JString(e.path)), afterPath, "model");
    LookupOptional("model", e.model, rest, "model");
    LookupOptional("color", e.color, last, "model");
    LookupOptional("description", e.description, [], "model");
    assert last + [] == last;
  }

  /** The registry the generator writes passes validation exactly when every
      model it names is valid and every agent file exists. */
  lemma GeneratedRegistryPasses(version: string, agents: seq<(string, RegistryEntry)>, fileExists: string -> bool)
    ensures ValidateRegistry(Some(RegistryJson(version, agents)), fileExists) ==
              Some(forall i :: 0 <= i < |agents| ==>
                     && (agents[i].1.model.Some? ==> agents[i].1.model.value in ["opus", "sonnet", "inherit"])
                     && fileExists(agents[i].1.path))
  {
    var doc := RegistryJson(version, agents);
    var items := doc.members[1].1.members;
    assert Lookup(doc.members, "agents") == Some(doc.members[1].1);
    forall i | 0 <= i < |items|
      ensures items[i].1 == EntryJson(agents[i].1)
      ensures items[i].1.JObject?
      ensures Lookup(items[i].1.members, "path").Some? ==> Lookup(items[i].1.members, "path").value.JString?
      ensures AgentOk(items[i].1.members, fileExists) <==>
                (agents[i].1.model.Some? ==> agents[i].1.model.value in ["opus", "sonnet", "inherit"])
                && fileExists(agents[i].1.path)
    {
      GeneratedEntryOk(agents[i].1, fileExists);
    }
    ValidatePasses(doc.members, fileExists);
  }
}
