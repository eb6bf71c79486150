/** scripts/build-marketplaces.py: plugin and marketplace records assembled
    from the shared configuration and the agent registry, both passed in as
    values. */
module Marketplace {
  import opened Json
  import opened Catalogue
  import LastWins
  import RegistryGen

  /** `common["defaults"]` */
  datatype Defaults = Defaults(
    source: string,
    author: Json,
    homepage: string,
    repository: string,
    license: string,
    strict: bool,
    owner: Json)

  /** The shared configuration: a version and the defaults. */
  datatype Common = Common(version: string, defaults: Defaults)

  datatype Metadata = Metadata(description: string, version: string)

  /** A marketplace file. */
  datatype MarketplaceFile = MarketplaceFile(name: string, owner: Json, metadata: Metadata, plugins: seq<Plugin>)

  /** `[registry["agents"][id]["path"] for id in ids if id in registry["agents"]]`:
      the paths of the listed agents the registry knows, in list order. */
  function ResolveAgents(ids: seq<string>, agents: map<string, RegistryEntry>): (r: seq<string>)
    ensures |r| <= |ids|
    ensures forall p :: p in r ==> exists id :: id in ids && id in agents && agents[id].path == p
    ensures forall id :: id in ids && id in agents ==> agents[id].path in r
    decreases |ids|
  {
    if |ids| == 0 then []
    else
      var rest := ResolveAgents(ids[1..], agents);
      assert forall id :: id in ids[1..] ==> id in ids;
      assert forall id :: id in ids ==> id == ids[0] || id in ids[1..];
      if ids[0] in agents then [agents[ids[0]].path] + rest else rest
  }

  /** Resolving a concatenation resolves each part. */
  lemma {:induction false} ResolveAppend(xs: seq<string>, ys: seq<string>, agents: map<string, RegistryEntry>)
    ensures ResolveAgents(xs + ys, agents) == ResolveAgents(xs, agents) + ResolveAgents(ys, agents)
    decreases |xs|
  {
    if |xs| == 0 {
      assert xs + ys == ys;
    } else {
      assert (xs + ys)[0] == xs[0];
      assert (xs + ys)[1..] == xs[1..] + ys;
      ResolveAppend(xs[1..], ys, agents);
    }
  }

  /** When the registry knows every listed agent, the paths line up with the
      list one to one. */
  lemma {:induction false} ResolveAllKnown(ids: seq<string>, agents: map<string, RegistryEntry>)
    requires forall i :: 0 <= i < |ids| ==> ids[i] in agents
    ensures |ResolveAgents(ids, agents)| == |ids|
    ensures forall i :: 0 <= i < |ids| ==> ResolveAgents(ids, agents)[i] == agents[ids[i]].path
    decreases |ids|
  {
    if |ids| > 0 {
      ResolveAllKnown(ids[1..], agents);
    }
  }

  /** Unknown agents are dropped without a trace. */
  lemma {:induction false} ResolveUnknown(ids: seq<string>, agents: map<string, RegistryEntry>)
    requires forall i :: 0 <= i < |ids| ==> ids[i] !in agents
    ensures ResolveAgents(ids, agents) == []
    decreases |ids|
  {
    if |ids| > 0 {
      ResolveUnknown(ids[1..], agents);
    }
  }

  /** `create_plugin(name, description, agents, keywords, category)` */
  function CreatePlugin(common: Common, registry: Registry, name: string, description: string,
                        agents: seq<string>, keywords: seq<string>, category: string): (p: Plugin)
    ensures p.name == name && p.description == description
    ensures p.keywords == keywords && p.category == category
    ensures p.version == common.version
    ensures && p.source == common.defaults.source && p.author == common.defaults.author
            && p.homepage == common.defaults.homepage && p.repository == common.defaults.repository
            && p.license == common.defaults.license && p.strict == common.defaults.strict
    ensures p.agents == ResolveAgents(agents, registry.agents)
  {
    Plugin(
      name := name,
      source := common.defaults.source,
      description := description,
      version := common.version,
      author := common.defaults.author,
      homepage := common.defaults.homepage,
      repository := common.defaults.repository,
      license := common.defaults.license,
      keywords := keywords,
      category := category,
      strict := common.defaults.strict,
      agents := ResolveAgents(agents, registry.agents))
  }

  /** `create_marketplace(name, description, plugins)` */
  function CreateMarketplace(common: Common, name: string, description: string, plugins: seq<Plugin>): (m: MarketplaceFile)
    ensures m.name == name && m.plugins == plugins
    ensures m.metadata == Metadata(description, common.version)
    ensures m.owner == common.defaults.owner
  {
    MarketplaceFile(name, common.defaults.owner, Metadata(description, common.version), plugins)
  }

  /** A plugin spec as listed in the marketplace definitions. */
  datatype PluginSpec = PluginSpec(name: string, description: string, agents: seq<string>, keywords: seq<string>, category: string)

  /** A marketplace built from specs: every plugin carries the marketplace's
      version and the shared defaults. */
  lemma VersionsAgree(common: Common, registry: Registry, name: string, description: string, specs: seq<PluginSpec>)
    ensures var plugins := seq(|specs|, i requires 0 <= i < |specs| =>
                             CreatePlugin(common, registry, specs[i].name, specs[i].description,
                                          specs[i].agents, specs[i].keywords, specs[i].category));
            var m := CreateMarketplace(common, name, description, plugins);
            && |m.plugins| == |specs|
            && forall i :: 0 <= i < |m.plugins| ==>
                 && m.plugins[i].version == m.metadata.version
                 && m.plugins[i].author == common.defaults.author
                 && m.plugins[i].source == common.defaults.source
                 && m.plugins[i].strict == common.defaults.strict
  {
  }

  /** Every path a plugin lists against a generated registry is the agent path
      of some file in the agents directory other than `README.md`. */
  lemma ResolvedPathsAreAgentFiles(ids: seq<string>, files: seq<AgentFile>)
    ensures forall p :: p in ResolveAgents(ids, RegistryGen.GenerateRegistry(files).agents) ==>
              exists i :: 0 <= i < |files| && files[i].name != "README.md" && p == AgentPath(files[i].name)
  {
    var agents := RegistryGen.GenerateRegistry(files).agents;
    forall p | p in ResolveAgents(ids, agents)
      ensures exists i :: 0 <= i < |files| && files[i].name != "README.md" && p == AgentPath(files[i].name)
    {
      var id :| id in ids && id in agents && agents[id].path == p;
      RegistryGen.RegistryLastWins(files, id);
      var i :| && 0 <= i < |files| && LastWins.Assigns(RegistryGen.EntryFor(files[i]), id)
               && agents[id] == RegistryGen.EntryFor(files[i]).value.1
               && agents[id].path == AgentPath(files[i].name)
               && forall j :: i < j < |files| ==> !LastWins.Assigns(RegistryGen.EntryFor(files[j]), id);
      assert files[i].name != "README.md";
    }
  }
}
