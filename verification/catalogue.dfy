/** The records the catalogue scripts write as JSON: marketplace plugin
    entries and the agent registry. */
module Catalogue {
  import opened Wrappers
  import opened Json

  /** The path under which both generators list an agent's markdown file. */
  function AgentPath(fileName: string): string {
    "./agents/" + fileName
  }

  /** A markdown file in the agents directory; `content` is `None` when the
      file could not be read. */
  datatype AgentFile = AgentFile(name: string, content: Option<string>)

  /** A plugin entry of a marketplace file. `author` is copied as an opaque
      JSON value. */
  datatype Plugin = Plugin(
    name: string,
    source: string,
    description: string,
    version: string,
    author: Json,
    homepage: string,
    repository: string,
    license: string,
    keywords: seq<string>,
    category: string,
    strict: bool,
    agents: seq<string>)

  /** One agent of the registry; the optional fields are left out of the JSON
      object when `None`. */
  datatype RegistryEntry = RegistryEntry(
    name: string,
    path: string,
    model: Option<string>,
    color: Option<string>,
    description: Option<string>)

  /** The registry: a version and the agents keyed by their frontmatter name. */
  datatype Registry = Registry(version: string, agents: map<string, RegistryEntry>)
}
