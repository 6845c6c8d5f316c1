/**
 Server tools: rules hand tools to the models their patterns match; the console edits one
 model's selection by rewriting the rules to one exact rule per model.
 */
module ServerTools {
  import opened Common
  import opened ModelPatterns

  /** A declared tool. Absent fields, and fields that are not strings, read as ""; `extra` is
      everything else in the object. */
  datatype Tool = Tool(kind: string, name: string, functionName: string, extra: string)

  /** An entry of a request's tool list need not be an object. */
  datatype Entry = Object(tool: Tool) | Other(text: string)

  datatype Rule = Rule(models: seq<string>, tools: seq<Tool>)

  datatype Config = Config(models: seq<string>, rules: seq<Rule>)

  const NUL: char := '\0'

  function Kind(t: Tool): string { Trim(t.kind) }

  function Name(t: Tool): string { if Trim(t.name) == "" then Trim(t.functionName) else Trim(t.name) }

  function Key(t: Tool): string {
    if Kind(t) == "" && Name(t) == "" then "" else Kind(t) + [NUL] + Name(t)
  }

  /** Functions that gateway tools of the kind "vercel:<function>" reserve. */
  predicate Reserved(name: string) {
    name in {"exa_search", "perplexity_search", "parallel_search", "tako_search", "browserbase_search",
             "browserbase_fetch"}
  }

  /** The function name a gateway tool reserves, for the kinds that are known. */
  function Builtin(t: Tool): string {
    var k := Kind(t);
    if |k| > 7 && k[..7] == "vercel:" && Reserved(k[7..]) then k[7..] else ""
  }

  function Bare(kind: string): Tool { Tool(kind, "", "", "") }

  predicate RuleMatches(rule: Rule, model: string) {
    exists p :: p in rule.models && Accepts(p, model)
  }

  /** All tools of the rules that match, in order. */
  function Offered(rules: seq<Rule>, model: string): seq<Tool> {
    if rules == [] then []
    else (if RuleMatches(rules[0], model) then rules[0].tools else []) + Offered(rules[1..], model)
  }

  predicate Barred(t: Tool, barred: set<string>) { Builtin(t) != "" && Builtin(t) in barred }

  /** First definition wins: of each key not seen before one tool is kept, unless it is barred. */
  function Keep(ts: seq<Tool>, seen: set<string>, barred: set<string>): seq<Tool> {
    if ts == [] then []
    else if Key(ts[0]) == "" || Key(ts[0]) in seen || Barred(ts[0], barred) then Keep(ts[1..], seen, barred)
    else [ts[0]] + Keep(ts[1..], seen + {Key(ts[0])}, barred)
  }

  function Resolved(rules: seq<Rule>, model: string): seq<Tool> { Keep(Offered(rules, model), {}, {}) }

  function Declared(entries: seq<Entry>): set<string> {
    set e <- entries | e.Object? && Key(e.tool) != "" :: Key(e.tool)
  }

  function ClientName(t: Tool): string {
    if Kind(t) != "function" then "" else if Trim(t.functionName) == "" then Trim(t.name) else Trim(t.functionName)
  }

  function ClientFunctions(entries: seq<Entry>): set<string> {
    set e <- entries | e.Object? && ClientName(e.tool) != "" :: ClientName(e.tool)
  }

  /** The tools a request is given on top of its own. */
  function Added(entries: seq<Entry>, offered: seq<Tool>): seq<Tool> {
    Keep(offered, Declared(entries), ClientFunctions(entries))
  }

  function Wrapped(ts: seq<Tool>): seq<Entry> { seq(|ts|, i requires 0 <= i < |ts| => Object(ts[i])) }

  /** Kinds in order of first appearance. */
  function Kinds(ts: seq<Tool>, seen: set<string>): seq<string> {
    if ts == [] then []
    else if Kind(ts[0]) == "" || Kind(ts[0]) in seen then Kinds(ts[1..], seen)
    else [Kind(ts[0])] + Kinds(ts[1..], seen + {Kind(ts[0])})
  }

  function Effective(c: Config): map<string, seq<string>> {
    map id | id in c.models :: Kinds(Resolved(c.rules, id), {})
  }

  function Selected(ts: seq<Tool>, types: seq<string>): seq<Tool> {
    if ts == [] then []
    else (if Kind(ts[0]) in types then [ts[0]] else []) + Selected(ts[1..], types)
  }

  predicate HasKind(ts: seq<Tool>, k: string) { exists t :: t in ts && Kind(t) == k }

  function Missing(types: seq<string>, kept: seq<Tool>): seq<Tool> {
    if types == [] then []
    else (if HasKind(kept, types[0]) then [] else [Bare(types[0])]) + Missing(types[1..], kept)
  }

  function Chosen(resolved: seq<Tool>, types: seq<string>): seq<Tool> {
    Selected(resolved, types) + Missing(types, Selected(resolved, types))
  }

  function TypesOf(effective: map<string, seq<string>>, id: string): seq<string> {
    if id in effective then effective[id] else []
  }

  /** One exact rule for each model that has tools. */
  function FlatRules(models: seq<string>, rules: seq<Rule>, effective: map<string, seq<string>>): seq<Rule> {
    if models == [] then []
    else
      var types := TypesOf(effective, models[0]);
      (if types == [] then [] else [Rule([models[0]], Chosen(Resolved(rules, models[0]), types))])
      + FlatRules(models[1..], rules, effective)
  }

  /** Trimmed, without blanks and repetitions. */
  function Cleaned(kinds: seq<string>, seen: set<string>): seq<string> {
    if kinds == [] then []
    else if Trim(kinds[0]) == "" || Trim(kinds[0]) in seen then Cleaned(kinds[1..], seen)
    else [Trim(kinds[0])] + Cleaned(kinds[1..], seen + {Trim(kinds[0])})
  }

  // ---------------------------------------------------------------- validity

  const MAX_TOOLS := 16

  predicate ValidPattern(p: string) { Trim(p) != "" && forall c :: c in p ==> c !in "\r\n\t" }

  predicate DistinctKeys(ts: seq<Tool>) { forall i, j :: 0 <= i < j < |ts| ==> Key(ts[i]) != Key(ts[j]) }

  predicate ValidRule(r: Rule) {
    && r.models != [] && r.tools != [] && (forall p :: p in r.models ==> ValidPattern(p))
    && |r.tools| <= MAX_TOOLS && (forall t :: t in r.tools ==> Kind(t) != "") && DistinctKeys(r.tools)
  }

  /** What the configuration check asks of model names and of server-tool rules. */
  predicate ValidConfig(c: Config) {
    && (forall i :: 0 <= i < |c.models| ==> ValidPattern(c.models[i]))
    && (forall i, j :: 0 <= i < j < |c.models| ==> c.models[i] != c.models[j])
    && (forall r :: r in c.rules ==> ValidRule(r))
  }

  /** Model names free of wildcards and distinct even when trimmed: each is matched by itself only. */
  predicate ExactModels(models: seq<string>) {
    && (forall i :: 0 <= i < |models| ==> StarFree(models[i]))
    && (forall i, j :: 0 <= i < j < |models| ==> Trim(models[i]) != Trim(models[j]))
  }

  datatype SaveError = BlankModel | UnknownModel | InvalidRules | NotWritten | NotPropagated

  /** What becomes of a save that passes the checks: whether the settings are written, and then
      whether all credentials are registered anew and pending quota writes are made up for. */
  datatype Commit = Commit(written: bool, registered: bool, reconciled: bool)

  /** Whether replacing one model's selection reaches the configuration in force. */
  predicate Commits(c: Config, model: string, kinds: seq<string>, io: Commit) {
    Trim(model) != "" && model in c.models && ValidConfig(Edited(c, model, kinds)) && io.written
  }

  function SaveFailure(c: Config, model: string, kinds: seq<string>, io: Commit): Option<SaveError> {
    if Trim(model) == "" then Some(BlankModel)
    else if model !in c.models then Some(UnknownModel)
    else if !ValidConfig(Edited(c, model, kinds)) then Some(InvalidRules)
    else if !io.written then Some(NotWritten)
    else if !io.registered || !io.reconciled then Some(NotPropagated)
    else None
  }

  /** The configuration in force after the save: what follows the write cannot take it back. */
  function InForce(c: Config, model: string, kinds: seq<string>, io: Commit): Config {
    if Commits(c, model, kinds, io) then Edited(c, model, kinds) else c
  }

  function Edited(c: Config, model: string, kinds: seq<string>): Config {
    c.(rules := FlatRules(c.models, c.rules, Effective(c)[model := Cleaned(kinds, {})]))
  }
}
