# Hanzo agents catalogue tooling and data-directory layout, in Dafny

This project models the pure logic of the Hanzo agents catalogue scripts and of
the control plane's data-directory layout, and proves properties of it.

- `generate_plugins.py` reads the `---`-fenced frontmatter of an agent file as
  `key: value` lines. It picks plugin keywords, either a fixed list for a known
  agent name or a short generic list built from the description. It then
  builds the marketplace plugin entry.
- `scripts/generate-registry.py` parses the frontmatter more strictly. Only
  `name`, `model` and `color` are kept, quotes are stripped, and the
  description is captured with a regex search. For each agent file it builds a
  registry entry: a title-cased name, a `./agents/` path and a truncated
  description. Entries are keyed by name, so a later file wins.
- `scripts/validate-registry.py` checks a loaded registry document. It
  collects errors and warnings, and the verdict is "no errors".
- `scripts/build-marketplaces.py` assembles plugins and marketplaces from the
  shared configuration and the registry.
- `control-plane/internal/utils/paths.go` chooses the data home from
  `HANZO_AGENTS_HOME` or the user's home. It derives the directory tree and
  the well-known file paths under it.

Modules:

- `Wrappers`: `Option` and `Result`.
- `Text`: ASCII string helpers. These cover Python's `strip`, `split`,
  `lower`, `title`, `islower`, `find` and substring `in`.
- `LastWins`: the dictionary fold where the last assignment to a key wins.
- `Header`: the two frontmatter regexes `^---\s*\n(.*?)\n---` and
  `^---\s*\n(.*?)\n---\s*\n`, as a scanner in backtracking order. The greedy
  `\s*` first tries the last newline of the opening whitespace run. The lazy
  body then stops at the first closing fence.
- `KeywordTables` and `Keywords`: the keyword tables and `generate_keywords`.
- `PluginGen`: `extract_frontmatter` and `generate_plugin_entry`.
- `RegistryGen`: `parse_frontmatter` and `generate_registry`.
- `Json` and `RegistryCheck`: JSON values and `validate_registry`.
- `Catalogue`: the plugin and registry records.
- `Marketplace`: `create_plugin` and `create_marketplace`.
- `DataPaths`: `paths.go`.

I/O results come in as parameters:

- file contents, with `None` for an unreadable file;
- the directory listing, in the order the script sorts it;
- the loaded JSON document;
- the `Path.exists` answer, as a function on the path string;
- the environment value and the user-home lookup.

Paths are sequences of components. An empty environment value means unset.

## Model

| member | source | states |
|---|---|---|
| Header.Match | generate_plugins.py:12 | The fence regex fails exactly when no opening `---` line is followed by a closing fence. A closing fence is `\n---`, and with the trailing form of the regex (`generate_plugins.py`) it must also be followed by whitespace that contains a newline (`\s*\n`). On success, the body lies between the highest viable opening newline and the first closing fence after it. No later opening has any closing fence after it. |
| Header.MatchFails | scripts/generate-registry.py:16-18 | The backtracking search from the end of the opening whitespace run fails exactly when no opening and closing fence pair exists. |
| Header.MatchFinds | scripts/generate-registry.py:16 | A successful search returns a body that starts after an opening newline and stops at the first closing fence. No higher opening could have matched. |
| Header.SearchFails | scripts/generate-registry.py:16 | Trying the candidate newlines from position `p` downwards fails exactly when none of them is followed by a closing fence. |
| Header.SearchFindsHighest | scripts/generate-registry.py:16 | The greedy `\s*` settles on the highest viable newline, and the lazy body ends at the first closing fence after it. |
| Text.SplitJoinRoundTrip | generate_plugins.py:17 | Splitting a join of separator-free parts on the separator gives the parts back. |
| Text.Split | scripts/generate-registry.py:24 | `split('\n')` gives at least one part. No part holds the separator, and joining the parts gives the input back. |
| Text.SplitOnceUnique | generate_plugins.py:19 | `split(':', 1)` cuts at the first colon: a separator-free key and the rest, colons included. |
| Text.StripBy | generate_plugins.py:20 | `strip` removes a prefix and a suffix of dropped characters. The result neither starts nor ends with one. |
| Text.StripIdempotent | scripts/generate-registry.py:38 | Stripping an already stripped string changes nothing. |
| Text.StripByWrapped | scripts/generate-registry.py:33 | Stripping a quote character off a value wrapped in it gives the value back. |
| Text.TitleLowerRoundTrip | scripts/generate-registry.py:78 | For an all-lower-case name, `title()` keeps the length, and lower-casing gives the name back. |
| Text.TitleOfLowerHasUpper | scripts/generate-registry.py:78 | Title-casing a lower-case name produces an upper-case letter, so the result is no longer `islower()`. |
| LastWins.CollectLastWins | scripts/generate-registry.py:99 | A key is in the folded dictionary exactly when some item assigns it. It then holds the value of the last item that does. |
| PluginGen.LineEntry | generate_plugins.py:18-20 | A header line yields an entry exactly when it contains a colon. |
| PluginGen.LineEntryFirstColon | generate_plugins.py:18-20 | `key:value` with a colon-free key gives the stripped key and the stripped value. Later colons stay in the value. |
| PluginGen.FrontmatterLines | generate_plugins.py:12-17 | The header lines exist exactly when the fenced block (with `\s*\n` after the closing fence) matches. No line holds a newline. |
| PluginGen.ExtractFrontmatter | generate_plugins.py:10-22 | `None` exactly when the content does not open with a fenced block. |
| PluginGen.FrontmatterLastWins | generate_plugins.py:17-20 | A key is in the frontmatter exactly when some line defines it. Its value is the stripped value of the last such line. |
| PluginGen.GeneratePluginEntry | generate_plugins.py:174-205 | An entry exists exactly when the frontmatter has `name` and `description`. Its name is `hanzo-` followed by the frontmatter name, and the description is passed through. Its keywords are those `generate_keywords` gives for that name and description. Its agents list is exactly `./agents/` plus the file name. Version `1.0.1`, source `./`, the Hanzo author, homepage, repository, `MIT` license, `specialists` category and a false `strict` are fixed. |
| PluginGen.PluginNamesDistinct | generate_plugins.py:187 | Agents with different frontmatter names get different plugin names. |
| PluginGen.UnknownAgentKeywords | generate_plugins.py:184 | An agent missing from the tables gets 2 to 4 keywords, starting with `agent`, `ai`. It carries `api` exactly when its description mentions `api`. |
| Keywords.KnownNameKeepsTableList | generate_plugins.py:141-151 | `generate_keywords` gives a name in the combined table that table's list, with no cut. |
| Keywords.AiEngineerKeepsFive | generate_plugins.py:60 | `ai-engineer` gets all five of its keywords whatever its description says. |
| Keywords.AiEngineerInCombinedTable | generate_plugins.py:141-147 | No later table overrides the role table's `ai-engineer` list in the merged dictionary. |
| Keywords.AccumulateAppendsFired | generate_plugins.py:158-169 | The conditional appends add exactly the triggered keywords, in rank order. |
| Keywords.GenericChain | generate_plugins.py:154-171 | The generic list is `agent`, `ai` plus the triggered keywords, cut to four. |
| Keywords.FiredFromRanks | generate_plugins.py:158-169 | A keyword fired from rank `i` onwards is a generic keyword of rank at least `i`. |
| Keywords.GenericKeywordsSpec | generate_plugins.py:153-171 | For an unknown name: `agent`, `ai` and the first two triggered keywords. There are 2 to 4 items. `api` and `testing` appear exactly when `api` and `test` occur in the lower-cased description. |
| RegistryGen.Unquote | scripts/generate-registry.py:38 | A value stripped of whitespace, then `"`, then `'` neither starts nor ends with `'`. |
| RegistryGen.UnquoteQuoted | scripts/generate-registry.py:33 | A bare, double-quoted or single-quoted value comes out as the bare value. |
| RegistryGen.FieldOf | scripts/generate-registry.py:35-40 | A recorded field has a whitelisted key and a non-empty value. It comes from a line with a colon whose stripped form does not start with `-`. |
| RegistryGen.FieldOfLine | scripts/generate-registry.py:35-40 | A line `key:value` is cut at its first colon. It records its own stripped key with its own unquoted value exactly when the key is `name`, `model` or `color` and the value is non-empty. Any other key, or an empty value, records nothing. |
| RegistryGen.KeyLineNotDashed | scripts/generate-registry.py:35 | A line that starts with a whitelisted key never falls under the `-` skip. |
| RegistryGen.DescriptionText | scripts/generate-registry.py:28 | The search fails exactly when `description:` is absent or ends the header. Otherwise the group starts where the whitespace run after the first `description:` ends. If that run reaches the end, the group is its last character. The group is the lazy text up to the first `\nmodel:`, a final newline or the end. |
| RegistryGen.DescriptionFound | scripts/generate-registry.py:28 | A one-line description after the first `description:` and any run of whitespace, followed by `\nmodel:` or the end, is captured exactly, without the whitespace. |
| RegistryGen.Classify | scripts/generate-registry.py:26 | A line takes the description branch exactly when it starts with `description:`. |
| RegistryGen.ParseFrontmatter | scripts/generate-registry.py:16-40 | A header without a fenced block gives the empty mapping. Otherwise the only keys are `name`, `model`, `color` and `description`. |
| RegistryGen.ParseLines | scripts/generate-registry.py:24-40 | Every parsed key was set by some line. `description` may come from a `description:` line whose search succeeded. Any other key comes from a `key: value` line that records exactly that key and the stored value. |
| RegistryGen.ParseLinesSeparates | scripts/generate-registry.py:24-40 | The loop is the last-wins collection of the field lines plus one description entry. The entry is present when some line starts with `description:` and the search succeeds. |
| RegistryGen.ParseFieldLastWins | scripts/generate-registry.py:35-40 | A non-description key is parsed exactly when some line records it. It is whitelisted and holds the last recorded value. |
| RegistryGen.ParseDescriptionPresent | scripts/generate-registry.py:26-34 | `description` is parsed exactly when some line starts with `description:` and the search succeeds. |
| RegistryGen.EntryName | scripts/generate-registry.py:78 | An all-lower-case name is title-cased: a letter becomes upper-case exactly when it starts a word, that is, when it comes first or follows a non-letter. Lower-casing gives the name back. Any other name is kept. The length is unchanged. |
| RegistryGen.EntryNameIdempotent | scripts/generate-registry.py:78 | Naming an entry name again changes nothing. |
| RegistryGen.FirstSentence | scripts/generate-registry.py:93 | The first part of `re.split(r'[.!?]\s', d)` is the longest prefix with no sentence break. It stops at the first break or at the end. |
| RegistryGen.Summarize | scripts/generate-registry.py:89-97 | The first sentence when it is under 200 characters. Otherwise the first 200 characters plus `...`. |
| RegistryGen.SummarizeShort | scripts/generate-registry.py:93-95 | A first sentence under 200 characters is the stored description. |
| RegistryGen.SummarizeIdempotent | scripts/generate-registry.py:89-97 | Truncating a stored description again changes nothing. |
| RegistryGen.EntryForSpec | scripts/generate-registry.py:55-99 | A file gets an entry exactly when it is not `README.md`, it can be read and its frontmatter has a non-empty name. The entry is keyed by that name, with path `./agents/<file>`. `model` and `color` are copied when present. The description is truncated and at most 203 characters. |
| RegistryGen.EntryFor | scripts/generate-registry.py:57-79 | An entry never comes from `README.md`. Its path is `./agents/` plus the file name. |
| RegistryGen.GenerateRegistry | scripts/generate-registry.py:47-50 | The registry version is `1.0.1`. |
| RegistryGen.RegistryLastWins | scripts/generate-registry.py:99 | A name is in the registry exactly when some file yields it. It maps to the entry of the last such file. |
| RegistryGen.RegistryEntryShape | scripts/generate-registry.py:78-97 | Each registry entry has the naming rule applied to its key and a `./agents/` path. Its description is at most 203 characters. |
| RegistryCheck.ValidateRegistry | scripts/validate-registry.py:11-99 | `true` exactly when the checks ran to the end with no error, whatever the warnings. An early stop or an unloadable document gives `false`. `None` exactly when the script raises. |
| RegistryCheck.StopsOnBadAgents | scripts/validate-registry.py:26-39 | A missing or non-object `agents` stops the run with a false verdict. The last error names which case applied. The version error is still recorded exactly when `version` is missing. |
| RegistryCheck.ScalarDocumentRaises | scripts/validate-registry.py:27 | A document that is a number, boolean or null makes `in` raise. |
| RegistryCheck.CheckAgentsAppend | scripts/validate-registry.py:46 | Checking consecutive groups of agents concatenates their errors and warnings. |
| RegistryCheck.CheckAgent | scripts/validate-registry.py:46-67 | One agent entry raises when it is a number, boolean or null. Otherwise every error is about that agent: a missing field, an invalid model or a missing file. Every warning is about that agent too. There are at most four errors and two warnings. |
| RegistryCheck.CheckAgentObject | scripts/validate-registry.py:46-67 | For one agent object, each missing required field gives exactly one error, counted with multiplicity. Each missing `model` or `description` gives a warning and nothing else. No errors exactly when the agent is acceptable. |
| RegistryCheck.ObjectProblemsCounts | scripts/validate-registry.py:48-50 | The error list of an agent object holds `missing required field` once for each absent required field, and never otherwise. |
| RegistryCheck.CheckAgentsPass | scripts/validate-registry.py:46-67 | For object entries with string paths the loop never raises. It reports no error exactly when every agent is acceptable. |
| RegistryCheck.ValidatePasses | scripts/validate-registry.py:26-99 | For an object of well-shaped agents, the verdict is a string `version` and every agent acceptable. Warnings do not matter. |
| RegistryCheck.VersionErrorContinues | scripts/validate-registry.py:26-46 | A missing or non-string `version` puts one error at the head of the list, and the run still checks every agent: it finishes with that error followed by the agents' errors. |
| RegistryCheck.GeneratedEntryOk | scripts/validate-registry.py:44-61 | A generated entry is accepted exactly when its model, if any, is `opus`, `sonnet` or `inherit`, and its file exists. |
| RegistryCheck.GeneratedRegistryPasses | scripts/validate-registry.py:26-99 | A registry as the generator writes it passes exactly when every model is valid and every path exists. |
| Marketplace.ResolveAgents | scripts/build-marketplaces.py:32 | The agent paths hold only the paths of listed ids the registry knows, and every such path is present. The list is no longer than the ids. |
| Marketplace.ResolveAppend | scripts/build-marketplaces.py:32 | Resolution keeps order: resolving a concatenation concatenates the results. |
| Marketplace.ResolveAllKnown | scripts/build-marketplaces.py:32 | When every id is known, the paths line up with the ids one to one. |
| Marketplace.ResolveUnknown | scripts/build-marketplaces.py:32 | Unknown ids are dropped silently. |
| Marketplace.CreatePlugin | scripts/build-marketplaces.py:18-33 | Name, description, keywords and category pass through unchanged. Source, author, homepage, repository, license and strict come from the defaults. The version is the common version, and agents are resolved. |
| Marketplace.CreateMarketplace | scripts/build-marketplaces.py:35-45 | The plugins are passed through and the owner comes from the defaults. The metadata carries the description and the common version. |
| Marketplace.VersionsAgree | scripts/build-marketplaces.py:24-42 | In a marketplace built from specs, every plugin's version equals the marketplace's metadata version. Every plugin carries the shared author, source and strict. |
| Marketplace.ResolvedPathsAreAgentFiles | scripts/build-marketplaces.py:32 | Against a generated registry, each resolved path is `./agents/` plus the name of some non-README agent file. |
| DataPaths.DataHome | control-plane/internal/utils/paths.go:30-37 | A non-empty `HANZO_AGENTS_HOME` is the home. Otherwise the home is the user's home plus `.hanzo-agents`. An error is possible only in that fallback, and it is propagated unchanged. |
| DataPaths.GetDataDirectories | control-plane/internal/utils/paths.go:28-57 | The layout fails exactly when the home cannot be determined, and then it carries the user-home lookup's error. Otherwise it is the standard layout under the chosen data home, the one `LayoutNesting` and `LayoutDistinct` describe. |
| DataPaths.LayoutNesting | control-plane/internal/utils/paths.go:40-54 | Every layout directory but the home lies under the home. The database directory is the data directory. Keys, DID registries, VCs and payloads lie under data. VC executions and workflows lie under VCs. |
| DataPaths.LayoutDistinct | control-plane/internal/utils/paths.go:67-81 | The thirteen directories to create are pairwise distinct, except that data and database are the same. |
| DataPaths.JoinName | control-plane/internal/utils/paths.go:137 | Joining a non-empty file name gives a direct child of the directory. An empty name gives the directory itself. |
| DataPaths.DatabasePath | control-plane/internal/utils/paths.go:105-111 | Fails exactly when the layout fails. Otherwise it is the database directory plus `hanzo-agents.db`. |
| DataPaths.KVStorePath | control-plane/internal/utils/paths.go:114-120 | Fails exactly when the layout fails. Otherwise it is the database directory plus `hanzo-agents.bolt`. |
| DataPaths.AgentRegistryPath | control-plane/internal/utils/paths.go:123-129 | Fails exactly when the layout fails. Otherwise it is the home plus `installed.json`. |
| DataPaths.ConfigPath | control-plane/internal/utils/paths.go:132-138 | Fails exactly when the layout fails. Otherwise it is the config directory joined with the file name. |
| DataPaths.LogPath | control-plane/internal/utils/paths.go:141-147 | Fails exactly when the layout fails. Otherwise it is the logs directory joined with the file name. |
| DataPaths.TempPath | control-plane/internal/utils/paths.go:150-156 | Fails exactly when the layout fails. Otherwise it is the temp directory joined with the file name. |
| DataPaths.StoreFilesDistinct | control-plane/internal/utils/paths.go:110-128 | The database and KV-store files are distinct files in `<home>/data`. The agent registry is `<home>/installed.json`. |
| DataPaths.NamedFilesApart | control-plane/internal/utils/paths.go:132-156 | Config, log and temp files with plain single-component names sit directly in their own directory under the home, and never coincide. |
| DataPaths.EnvironmentWins | control-plane/internal/utils/paths.go:30-31 | With `HANZO_AGENTS_HOME` set, the user-home lookup is never consulted: every path succeeds whatever it would return. |
| Json.Lookup | scripts/validate-registry.py:29 | `registry['version']` on a dict: no value exactly when no member has the key. A value found is one stored under that key. |
| Json.In | scripts/validate-registry.py:27 | `key in value`: raises exactly on a number, boolean or null. On a dict it tests the keys, on a string it tests for a substring, and on a list it tests for an element equal to the key. |
| Json.Index | scripts/validate-registry.py:37 | `value[key]` succeeds exactly on a dict holding the key, and gives a value stored under it. |

## Left out

- Reading and writing files, directory globbing, JSON dumping, printing and
  `sys.exit` are left out, as are the `main` functions of the three scripts
  that have one.
  File contents, the sorted file list and the loaded JSON come in as values.
- Module-level loading in `scripts/build-marketplaces.py` (lines 13-16) is
  left out. So are its table of marketplace definitions (lines 48-179) and
  the module-level loop that builds and writes each marketplace file
  (lines 182-194). `common` and `registry` are parameters, and the table is
  data.
- In `scripts/build-marketplaces.py`, registry entries are typed records that
  always carry a path. The script would raise `KeyError` on an entry without
  a `path`, and that case is not modelled. The shared defaults are typed in
  the same way.
- In `generate_plugins.py`, the `read_text` call is left out: the content is
  given. In `scripts/generate-registry.py` an unreadable file is content
  `None`, which is skipped as at lines 61-65.
- Python's `\s`, `strip()`, `lower()`, `title()` and `islower()` are modelled
  on ASCII, with Python's ASCII whitespace set. Unicode behaviour is left out.
- RegistryGen.DescriptionText: the search runs once per header, not once per
  `description:` line. The search does not depend on the line, so the result
  is the same.
- The validator's error and warning messages are datatypes rather than
  strings. The printed report is left out, including the first-10 cut of
  warnings at lines 84-90.
- JSON numbers are integers; floating point is left out.
- `Path(__file__).parent.parent / path` and `exists()` are one
  `fileExists` function applied to the path string. In the validator,
  joining a non-string path raises, and that is modelled as a raise.
- DataPaths.NamedFilesApart: file names are taken as single plain components
  (no `/`, not `.` or `..`). Go's `filepath.Join` cleans a name like
  `../logs/x`, which can make the config and log paths coincide, and that is
  not modelled.
- RegistryGen.GenerateRegistry: the agents are a map, so the insertion order
  of the Python dict is dropped. That order is the sorted file order, each
  name at its first assignment, and `json.dump` writes it.
- Json.Lookup takes the first member with a key. `json.load` keeps the last
  of repeated keys, so an object is taken to hold each key once. Texts with
  repeated keys are not modelled.
- Go's `filepath.Join` cleaning is left out. Paths are component sequences,
  and the environment value is taken as one component.
- `os.Getenv` and `os.UserHomeDir` are parameters.
- `EnsureDataDirectories` is modelled only as the list of directories it
  creates and the list it restricts. The `MkdirAll` and `Chmod` calls are
  file-system I/O.
- `GetPlatformSpecificPaths` and `ValidatePaths` are left out. The first
  depends on the operating system at run time, and the second is a write
  test on the file system.
- The rest of the repository is not part of this model:
  - the vision adapters under `sdk/python`;
  - the storage, container and interface files of the control plane;
  - the example agent server.
