/** The keyword lists `generate_keywords` in generate_plugins.py attaches to a
    plugin: a fixed list for a known agent name, otherwise a short generic list
    derived from the description. */
module Keywords {
  import opened Text
  import opened KeywordTables

  /** The combined table `{**language, **framework, **role, **seo, **core}`:
      on a shared name the later table wins, as with Dafny's map union. */
  const AllKeywords: map<string, seq<string>> :=
    LanguageTable + FrameworkTable + RoleTable + SeoTable + CoreTable

  /** The generic keywords in the order they are appended. */
  const GenericOrder: seq<string> := ["api", "testing", "security", "performance", "cloud", "database"]

  /** For each generic keyword in rank order, whether the lower-cased
      description triggers it. */
  function Triggers(lower: string): (flags: seq<bool>)
    ensures |flags| == |GenericOrder|
  {
    [ Contains(lower, "api"),
      Contains(lower, "test"),
      Contains(lower, "security"),
      Contains(lower, "performance"),
      Contains(lower, "cloud"),
      Contains(lower, "database") || Contains(lower, "db") ]
  }

  /** Reference definition: every triggered generic keyword from rank `i` on, in rank order. */
  function FiredFrom(flags: seq<bool>, i: nat): seq<string>
    requires |flags| == |GenericOrder| && i <= |GenericOrder|
    decreases |GenericOrder| - i
  {
    if i == |GenericOrder| then []
    else (if flags[i] then [GenericOrder[i]] else []) + FiredFrom(flags, i + 1)
  }

  /** Python's `keywords[:n]`. */
  function Take(s: seq<string>, n: nat): seq<string> {
    if |s| <= n then s else s[..n]
  }

  /** `keywords.append(keyword)` under condition `cond`. */
  function AppendIf(k: seq<string>, cond: bool, keyword: string): seq<string> {
    if cond then k + [keyword] else k
  }

  /** The fallback branch for an unknown agent name: `agent`, `ai`, one
      conditional append per generic keyword, then the cut to four items. */
  function GenericKeywords(description: string): seq<string> {
    var flags := Triggers(Lower(description));
    var k := ["agent", "ai"];
    var k := AppendIf(k, flags[0], "api");
    var k := AppendIf(k, flags[1], "testing");
    var k := AppendIf(k, flags[2], "security");
    var k := AppendIf(k, flags[3], "performance");
    var k := AppendIf(k, flags[4], "cloud");
    var k := AppendIf(k, flags[5], "database");
    Take(k, 4)
  }

  /** `generate_keywords(agent_name, description)` */
  function GenerateKeywords(agentName: string, description: string): seq<string> {
    if agentName in AllKeywords then AllKeywords[agentName] else GenericKeywords(description)
  }

  /** A name of the combined table gets exactly that table's list, untruncated. */
  lemma KnownNameKeepsTableList(agentName: string, description: string)
    requires agentName in AllKeywords
    ensures GenerateKeywords(agentName, description) == AllKeywords[agentName]
  {
  }

  /** `ai-engineer` keeps all five of its keywords: the four-item cut applies
      only to the generic list. */
  lemma AiEngineerKeepsFive(description: string)
    ensures GenerateKeywords("ai-engineer", description) == ["ai", "llm", "ml", "rag", "agents"]
    ensures |GenerateKeywords("ai-engineer", description)| == 5
  {
    AiEngineerInCombinedTable();
    KnownNameKeepsTableList("ai-engineer", description);
  }

  lemma AiEngineerInCombinedTable()
    ensures "ai-engineer" in AllKeywords
    ensures AllKeywords["ai-engineer"] == ["ai", "llm", "ml", "rag", "agents"]
  {
    AiEngineerInRoleTable();
    AiEngineerNotLater();
    var before := LanguageTable + FrameworkTable + RoleTable;
    assert before["ai-engineer"] == RoleTable["ai-engineer"];
    assert AllKeywords == before + SeoTable + CoreTable;
  }

  lemma AiEngineerInRoleTable()
    ensures "ai-engineer" in RoleTable
    ensures RoleTable["ai-engineer"] == ["ai", "llm", "ml", "rag", "agents"]
  {
    assert "ai-engineer" in RoleTableSecond;
  }

  lemma AiEngineerNotLater()
    ensures "ai-engineer" !in SeoTable
    ensures "ai-engineer" !in CoreTable
  {
  }

  /** Every keyword fired from rank `i` on is a generic keyword of rank `i` or more. */
  lemma {:induction false} FiredFromRanks(flags: seq<bool>, i: nat)
    requires |flags| == |GenericOrder| && i <= |GenericOrder|
    ensures forall x :: x in FiredFrom(flags, i) ==> x in GenericOrder[i..]
    decreases |GenericOrder| - i
  {
    if i < |GenericOrder| {
      FiredFromRanks(flags, i + 1);
    }
  }

  /** The conditional appends from rank `i` on, applied to `k` in rank order. */
  function Accumulate(flags: seq<bool>, i: nat, k: seq<string>): seq<string>
    requires |flags| == |GenericOrder| && i <= |GenericOrder|
    decreases |GenericOrder| - i
  {
    if i == |GenericOrder| then k
    else Accumulate(flags, i + 1, AppendIf(k, flags[i], GenericOrder[i]))
  }

  /** Appending in rank order adds exactly the fired keywords, in rank order. */
  lemma {:induction false} AccumulateAppendsFired(flags: seq<bool>, i: nat, k: seq<string>)
    requires |flags| == |GenericOrder| && i <= |GenericOrder|
    ensures Accumulate(flags, i, k) == k + FiredFrom(flags, i)
    decreases |GenericOrder| - i
  {
    if i < |GenericOrder| {
      var o := if flags[i] then [GenericOrder[i]] else [];
      AccumulateAppendsFired(flags, i + 1, AppendIf(k, flags[i], GenericOrder[i]));
      assert AppendIf(k, flags[i], GenericOrder[i]) == k + o;
      assert (k + o) + FiredFrom(flags, i + 1) == k + (o + FiredFrom(flags, i + 1));
    } else {
      assert k + [] == k;
    }
  }

  /** The six conditional appends of `generate_keywords` are the rank-order
      accumulation. */
  lemma GenericChain(description: string)
    ensures GenericKeywords(description) == Take(["agent", "ai"] + FiredFrom(Triggers(Lower(description)), 0), 4)
  {
    var flags := Triggers(Lower(description));
    var k := ["agent", "ai"];
    var k0 := AppendIf(k, flags[0], "api");
    var k1 := AppendIf(k0, flags[1], "testing");
    var k2 := AppendIf(k1, flags[2], "security");
    var k3 := AppendIf(k2, flags[3], "performance");
    var k4 := AppendIf(k3, flags[4], "cloud");
    var k5 := AppendIf(k4, flags[5], "database");
    assert Accumulate(flags, 6, k5) == k5;
    assert Accumulate(flags, 5, k4) == k5;
    assert Accumulate(flags, 4, k3) == k5;
    assert Accumulate(flags, 3, k2) == k5;
    assert Accumulate(flags, 2, k1) == k5;
    assert Accumulate(flags, 1, k0) == k5;
    assert Accumulate(flags, 0, k) == k5;
    AccumulateAppendsFired(flags, 0, k);
  }

  /** Cutting `agent, ai` plus the fired keywords to four items keeps at most two fired ones. */
  lemma TakeAfterPrefix(fired: seq<string>)
    ensures Take(["agent", "ai"] + fired, 4) == ["agent", "ai"] + Take(fired, 2)
  {
    if |fired| > 2 {
      assert (["agent", "ai"] + fired)[..4] == ["agent", "ai"] + fired[..2];
    }
  }

  /** A cut keeps a prefix: it never brings in a keyword. */
  lemma TakeKeeps(s: seq<string>, n: nat, x: string)
    requires x in Take(s, n)
    ensures x in s
  {
    if |s| > n {
      var i :| 0 <= i < n && s[..n][i] == x;
      assert s[i] == x;
    }
  }

  /** `api`, ranked first, survives the cut exactly when it fired. */
  lemma {:induction false} ApiKept(flags: seq<bool>)
    requires |flags| == |GenericOrder|
    ensures "api" in Take(FiredFrom(flags, 0), 2) <==> flags[0]
  {
    var fired := FiredFrom(flags, 0);
    var rest1 := FiredFrom(flags, 1);
    FiredFromRanks(flags, 1);
    assert "api" !in GenericOrder[1..];
    if flags[0] {
      assert fired == ["api"] + rest1;
      assert Take(fired, 2)[0] == "api";
    } else {
      assert fired == rest1;
      if "api" in Take(fired, 2) {
        TakeKeeps(fired, 2, "api");
      }
    }
  }

  /** `testing`, ranked second, survives the cut exactly when it fired. */
  lemma {:induction false} TestingKept(flags: seq<bool>)
    requires |flags| == |GenericOrder|
    ensures "testing" in Take(FiredFrom(flags, 0), 2) <==> flags[1]
  {
    var fired := FiredFrom(flags, 0);
    var rest1 := FiredFrom(flags, 1);
    var rest2 := FiredFrom(flags, 2);
    FiredFromRanks(flags, 2);
    assert "testing" !in GenericOrder[2..];
    assert fired == (if flags[0] then ["api"] else []) + rest1;
    if flags[1] {
      assert rest1 == ["testing"] + rest2;
      var at := if flags[0] then 1 else 0;
      assert fired[at] == "testing";
      assert Take(fired, 2)[at] == "testing";
    } else {
      assert rest1 == rest2;
      if "testing" in Take(fired, 2) {
        TakeKeeps(fired, 2, "testing");
      }
    }
  }

  /** For an unknown name the list is `agent`, `ai` and then the first two
      triggered generic keywords in rank order; `api` and `testing` are never cut. */
  lemma GenericKeywordsSpec(agentName: string, description: string)
    requires agentName !in AllKeywords
    ensures var r := GenerateKeywords(agentName, description);
            var fired := FiredFrom(Triggers(Lower(description)), 0);
            && r == ["agent", "ai"] + Take(fired, 2)
            && 2 <= |r| <= 4
            && r[..2] == ["agent", "ai"]
            && ("api" in r <==> Contains(Lower(description), "api"))
            && ("testing" in r <==> Contains(Lower(description), "test"))
  {
    var flags := Triggers(Lower(description));
    GenericChain(description);
    TakeAfterPrefix(FiredFrom(flags, 0));
    ApiKept(flags);
    TestingKept(flags);
  }
}
