/** generate_plugins.py: the frontmatter of an agent file as a dictionary of
    `key: value` lines, and the marketplace plugin entry built from it. */
module PluginGen {
  import opened Wrappers
  import opened Text
  import opened LastWins
  import opened Header
  import opened Json
  import opened Catalogue
  import opened Keywords

  /** One frontmatter line: split at its first colon, both halves stripped;
      `None` for a line without a colon, which the loop skips. */
  function LineEntry(line: string): (r: Option<(string, string)>)
    ensures r.None? <==> ':' !in line
  {
    if ':' in line then
      var (key, value) := SplitOnce(line, ':');
      Some((Strip(key), Strip(value)))
    else None
  }

  /** A line is cut at its first colon only: later colons stay in the value. */
  lemma LineEntryFirstColon(key: string, value: string)
    requires ':' !in key
    ensures LineEntry(key + [':'] + value) == Some((Strip(key), Strip(value)))
  {
    SplitOnceUnique(key, ':', value);
  }

  /** The lines of the stripped frontmatter body, or `None` when the header
      regex (which here also demands `\s*\n` after the closing fence) fails. */
  function FrontmatterLines(content: string): (r: Option<seq<string>>)
    ensures r.None? <==> !HasBlock(content, true)
    ensures r.Some? ==> |r.value| >= 1 && forall i :: 0 <= i < |r.value| ==> '\n' !in r.value[i]
  {
    match Match(content, true)
    case None => None
    case Some((b, e)) => Some(Split(Strip(content[b..e]), '\n'))
  }

  /** The assignment each line performs, in line order. */
  function Entries(lines: seq<string>): (r: seq<Option<(string, string)>>)
    ensures |r| == |lines|
    ensures forall i :: 0 <= i < |lines| ==> r[i] == LineEntry(lines[i])
  {
    seq(|lines|, i requires 0 <= i < |lines| => LineEntry(lines[i]))
  }

  /** `extract_frontmatter(content)` */
  function ExtractFrontmatter(content: string): (r: Option<map<string, string>>)
    ensures r.None? <==> !HasBlock(content, true)
  {
    match FrontmatterLines(content)
    case None => None
    case Some(lines) => Some(Collect(Entries(lines)))
  }

  /** A key of the frontmatter is one some line defines, and it holds the value
      of the last line that defines it. */
  lemma FrontmatterLastWins(content: string, lines: seq<string>, k: string)
    requires FrontmatterLines(content) == Some(lines)
    ensures ExtractFrontmatter(content).Some?
    ensures var fm := ExtractFrontmatter(content).value;
            k in fm <==> exists i :: 0 <= i < |lines| && Assigns(LineEntry(lines[i]), k)
    ensures var fm := ExtractFrontmatter(content).value;
            k in fm ==>
              exists i :: && 0 <= i < |lines| && Assigns(LineEntry(lines[i]), k)
                          && fm[k] == LineEntry(lines[i]).value.1
                          && forall j :: i < j < |lines| ==> !Assigns(LineEntry(lines[j]), k)
  {
    var items := Entries(lines);
    var fm := Collect(items);
    assert ExtractFrontmatter(content) == Some(fm);
    CollectLastWins(items, k);
    if k in fm {
      var i :| && 0 <= i < |items| && Assigns(items[i], k) && fm[k] == items[i].value.1
               && forall j :: i < j < |items| ==> !Assigns(items[j], k);
      assert items[i] == LineEntry(lines[i]);
    } else {
      forall i | 0 <= i < |lines| ensures !Assigns(LineEntry(lines[i]), k) {
        assert items[i] == LineEntry(lines[i]);
      }
    }
  }

  /** The fixed author object of every generated plugin. */
  const HanzoAuthor: Json :=
    JObject([("name", JString("Hanzo AI")),
             ("email", JString("dev@hanzo.ai")),
             ("url", JString("https://github.com/hanzoai"))])

  const PluginPrefix: string := "hanzo-"

  /** The frontmatter has both fields a plugin entry needs. */
  predicate HasNameAndDescription(fm: Option<map<string, string>>) {
    fm.Some? && "name" in fm.value && "description" in fm.value
  }

  /** `generate_plugin_entry(agent_file)` for a file named `fileName` holding
      `content`: `None` when the frontmatter is missing or lacks `name` or
      `description`. */
  function GeneratePluginEntry(fileName: string, content: string): (r: Option<Plugin>)
    ensures r.Some? <==> HasNameAndDescription(ExtractFrontmatter(content))
    ensures r.Some? ==>
              var fm := ExtractFrontmatter(content).value;
              && StartsWith(r.value.name, PluginPrefix)
              && r.value.name[|PluginPrefix|..] == fm["name"]
              && r.value.description == fm["description"]
              && r.value.agents == [AgentPath(fileName)]
              && r.value.keywords == GenerateKeywords(fm["name"], fm["description"])
              && r.value.version == "1.0.1"
              && r.value.source == "./"
              && r.value.author == HanzoAuthor
              && r.value.homepage == "https://github.com/hanzoai/agents"
              && r.value.repository == "https://github.com/hanzoai/agents"
              && r.value.license == "MIT"
              && r.value.category == "specialists"
              && !r.value.strict
  {
    var fm := ExtractFrontmatter(content);
    if !HasNameAndDescription(fm) then None
    else
      var agentName := fm.value["name"];
      var description := fm.value["description"];
      Some(Plugin(
        name := PluginPrefix + agentName,
        source := "./",
        description := description,
        version := "1.0.1",
        author := HanzoAuthor,
        homepage := "https://github.com/hanzoai/agents",
        repository := "https://github.com/hanzoai/agents",
        license := "MIT",
        keywords := GenerateKeywords(agentName, description),
        category := "specialists",
        strict := false,
        agents := [AgentPath(fileName)]))
  }

  /** Different frontmatter names give different plugin names: prefixing loses
      nothing. */
  lemma PluginNamesDistinct(file1: string, content1: string, file2: string, content2: string)
    requires GeneratePluginEntry(file1, content1).Some?
    requires GeneratePluginEntry(file2, content2).Some?
    requires ExtractFrontmatter(content1).value["name"] != ExtractFrontmatter(content2).value["name"]
    ensures GeneratePluginEntry(file1, content1).value.name != GeneratePluginEntry(file2, content2).value.name
  {
    var n1 := GeneratePluginEntry(file1, content1).value.name;
    var n2 := GeneratePluginEntry(file2, content2).value.name;
    assert n1[|PluginPrefix|..] != n2[|PluginPrefix|..];
  }

  /** A plugin of an agent absent from the keyword tables carries `agent`, `ai`
      and at most two generic keywords found in its description. */
  lemma UnknownAgentKeywords(fileName: string, content: string)
    requires GeneratePluginEntry(fileName, content).Some?
    requires ExtractFrontmatter(content).value["name"] !in AllKeywords
    ensures var p := GeneratePluginEntry(fileName, content).value;
            && 2 <= |p.keywords| <= 4
            && p.keywords[..2] == ["agent", "ai"]
            && ("api" in p.keywords <==> Contains(Lower(p.description), "api"))
  {
    var fm := ExtractFrontmatter(content).value;
    GenericKeywordsSpec(fm["name"], fm["description"]);
  }
}
