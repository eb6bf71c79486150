/** The fixed keyword lists of generate_plugins.py, one dictionary per group
    of agents (language, framework, role, SEO and core agents). */
module KeywordTables {

  /** `language_keywords` */
  const LanguageTable: map<string, seq<string>> := map[
    "python-pro" := ["python", "programming", "async", "fastapi"],
    "javascript-pro" := ["javascript", "programming", "nodejs", "frontend"],
    "typescript-pro" := ["typescript", "programming", "types", "nodejs"],
    "golang-pro" := ["go", "golang", "programming", "backend"],
    "rust-pro" := ["rust", "programming", "systems", "performance"],
    "java-pro" := ["java", "programming", "spring", "backend"],
    "c-pro" := ["c", "programming", "systems", "embedded"],
    "cpp-pro" := ["cpp", "c++", "programming", "systems"],
    "csharp-pro" := ["csharp", "c#", "dotnet", "programming"],
    "ruby-pro" := ["ruby", "programming", "rails", "backend"],
    "php-pro" := ["php", "programming", "web", "backend"],
    "scala-pro" := ["scala", "programming", "jvm", "functional"],
    "elixir-pro" := ["elixir", "programming", "functional", "erlang"],
    "sql-pro" := ["sql", "database", "queries", "optimization"]
  ]

  /** `framework_keywords` */
  const FrameworkTable: map<string, seq<string>> := map[
    "fastapi-pro" := ["fastapi", "python", "api", "async"],
    "django-pro" := ["django", "python", "web", "backend"],
    "flutter-expert" := ["flutter", "dart", "mobile", "crossplatform"],
    "unity-developer" := ["unity", "gamedev", "csharp", "3d"],
    "minecraft-bukkit-pro" := ["minecraft", "bukkit", "java", "plugins"]
  ]

  /** `role_keywords`, written as the union of two displays (the names are
      distinct, so neither the split nor the order of entries changes the
      dictionary; `ai-engineer` is listed last so that looking it up needs no
      comparison with the other names). */
  const RoleTable: map<string, seq<string>> := RoleTableFirst + RoleTableSecond

  const RoleTableFirst: map<string, seq<string>> := map[
    "backend-architect" := ["backend", "api", "architecture", "microservices"],
    "frontend-developer" := ["frontend", "ui", "react", "web"],
    "mobile-developer" := ["mobile", "ios", "android", "apps"],
    "ios-developer" := ["ios", "swift", "mobile", "apple"],
    "ml-engineer" := ["ml", "machine-learning", "ai", "training"],
    "mlops-engineer" := ["mlops", "ml", "deployment", "monitoring"],
    "data-engineer" := ["data", "etl", "pipeline", "spark"],
    "data-scientist" := ["data-science", "ml", "analytics", "statistics"],
    "database-architect" := ["database", "schema", "design", "optimization"],
    "database-admin" := ["database", "administration", "performance", "backup"],
    "database-optimizer" := ["database", "optimization", "performance", "tuning"],
    "cloud-architect" := ["cloud", "aws", "azure", "gcp", "infrastructure"],
    "hybrid-cloud-architect" := ["cloud", "hybrid", "multi-cloud", "infrastructure"],
    "kubernetes-architect" := ["kubernetes", "k8s", "containers", "orchestration"],
    "terraform-specialist" := ["terraform", "iac", "infrastructure", "cloud"],
    "devops-troubleshooter" := ["devops", "troubleshooting", "debugging", "operations"],
    "deployment-engineer" := ["deployment", "ci-cd", "release", "automation"],
    "observability-engineer" := ["observability", "monitoring", "logging", "metrics"],
    "performance-engineer" := ["performance", "optimization", "scalability", "profiling"],
    "network-engineer" := ["network", "infrastructure", "security", "protocols"],
    "security-auditor" := ["security", "audit", "vulnerabilities", "compliance"],
    "backend-security-coder" := ["security", "backend", "api", "encryption"],
    "frontend-security-coder" := ["security", "frontend", "xss", "csrf"],
    "mobile-security-coder" := ["security", "mobile", "ios", "android"],
    "incident-responder" := ["incident", "security", "response", "forensics"],
    "blockchain-developer" := ["blockchain", "web3", "smart-contracts", "crypto"],
    "graphql-architect" := ["graphql", "api", "schema", "queries"],
    "payment-integration" := ["payment", "stripe", "fintech", "transactions"]
  ]

  const RoleTableSecond: map<string, seq<string>> := map[
    "code-reviewer" := ["code-review", "quality", "best-practices", "feedback"],
    "debugger" := ["debugging", "troubleshooting", "errors", "fixes"],
    "error-detective" := ["errors", "debugging", "root-cause", "investigation"],
    "test-automator" := ["testing", "automation", "qa", "ci-cd"],
    "tdd-orchestrator" := ["tdd", "testing", "test-driven", "quality"],
    "legacy-modernizer" := ["legacy", "modernization", "refactoring", "migration"],
    "api-documenter" := ["documentation", "api", "openapi", "developer-experience"],
    "docs-architect" := ["documentation", "architecture", "technical-writing", "knowledge"],
    "tutorial-engineer" := ["tutorials", "education", "documentation", "learning"],
    "ui-ux-designer" := ["ui", "ux", "design", "user-experience"],
    "ui-visual-validator" := ["ui", "visual", "testing", "validation"],
    "dx-optimizer" := ["developer-experience", "dx", "tooling", "productivity"],
    "architect" := ["architecture", "system-design", "scalability", "patterns"],
    "architect-review" := ["architecture", "review", "design", "patterns"],
    "business-analyst" := ["business", "analysis", "requirements", "stakeholders"],
    "quant-analyst" := ["quantitative", "finance", "trading", "analytics"],
    "risk-manager" := ["risk", "compliance", "security", "governance"],
    "content-marketer" := ["content", "marketing", "seo", "copywriting"],
    "customer-support" := ["support", "customer-service", "help", "documentation"],
    "hr-pro" := ["hr", "human-resources", "recruiting", "talent"],
    "legal-advisor" := ["legal", "compliance", "contracts", "privacy"],
    "sales-automator" := ["sales", "automation", "crm", "outreach"],
    "context-manager" := ["context", "memory", "state", "management"],
    "mermaid-expert" := ["mermaid", "diagrams", "visualization", "documentation"],
    "prompt-engineer" := ["prompts", "ai", "llm", "optimization"],
    "reference-builder" := ["references", "citations", "documentation", "knowledge"],
    "reviewer" := ["review", "feedback", "quality", "assessment"],
    "scientist" := ["research", "science", "analysis", "methodology"],
    "search-specialist" := ["search", "information-retrieval", "indexing", "ranking"],
    "ai-engineer" := ["ai", "llm", "ml", "rag", "agents"]
  ]

  /** `seo_keywords` */
  const SeoTable: map<string, seq<string>> := map[
    "seo-authority-builder" := ["seo", "authority", "backlinks", "content"],
    "seo-cannibalization-detector" := ["seo", "cannibalization", "content", "analysis"],
    "seo-content-auditor" := ["seo", "audit", "content", "quality"],
    "seo-content-planner" := ["seo", "planning", "content", "strategy"],
    "seo-content-refresher" := ["seo", "refresh", "content", "updates"],
    "seo-content-writer" := ["seo", "writing", "content", "copywriting"],
    "seo-keyword-strategist" := ["seo", "keywords", "research", "strategy"],
    "seo-meta-optimizer" := ["seo", "metadata", "optimization", "titles"],
    "seo-snippet-hunter" := ["seo", "snippets", "serp", "ranking"],
    "seo-structure-architect" := ["seo", "structure", "architecture", "navigation"]
  ]

  /** `core_keywords` */
  const CoreTable: map<string, seq<string>> := map[
    "bot" := ["automation", "cli", "tools", "scripting"],
    "dev" := ["development", "coding", "programming", "tools"],
    "hanzo" := ["hanzo", "platform", "ai", "infrastructure"],
    "neo" := ["assistant", "ai", "helper", "productivity"],
    "vp" := ["leadership", "management", "strategy", "oversight"],
    "cto" := ["cto", "leadership", "technology", "strategy"]
  ]
}
