/** Resolving, injecting and rewriting server tools, step by step over requests and settings. */
module ServerToolService {
  import opened Common
  import opened ModelPatterns
  import opened ServerTools

  method ServerToolRuleMatches(rule: Rule, model: string) returns (matched: bool)
    ensures matched == RuleMatches(rule, model)
  {
    for n := 0 to |rule.models|
      invariant forall i :: 0 <= i < n ==> !Accepts(rule.models[i], model)
    {
      var matches := ModelPatternMatches(rule.models[n], model);
      if matches { return true; }
    }
    return false;
  }

  /** Appends what a list of tools adds to the tools kept so far. */
  method KeepTools(ts: seq<Tool>, kept: seq<Tool>, seen: set<string>, barred: set<string>)
    returns (tools: seq<Tool>, known: set<string>)
    ensures forall later :: tools + Keep(later, known, barred) == kept + Keep(ts + later, seen, barred)
    ensures tools == kept + Keep(ts, seen, barred)
  {
    hide Key, Builtin;
    tools, known := kept, seen;
    assert forall later :: ts[0..] + later == ts + later;
    for n := 0 to |ts|
      invariant forall later :: tools + Keep(ts[n..] + later, known, barred) == kept + Keep(ts + later, seen, barred)
    {
      var t := ts[n];
      ghost var was, knew := tools, known;
      assert forall later :: ts[n..] + later == [t] + (ts[n + 1..] + later);
      if !(Key(t) == "" || Key(t) in known || (Builtin(t) != "" && Builtin(t) in barred)) {
        tools, known := tools + [t], known + {Key(t)};
      }
      forall later
        ensures tools + Keep(ts[n + 1..] + later, known, barred) == was + Keep(ts[n..] + later, knew, barred)
      {
        KeepHead(t, ts[n + 1..] + later, knew, barred);
      }
    }
    assert forall later :: ts[|ts|..] + later == later;
    assert ts + [] == ts && Keep([], known, barred) == [];
  }

  lemma KeepHead(t: Tool, rest: seq<Tool>, seen: set<string>, barred: set<string>)
    ensures Keep([t] + rest, seen, barred) ==
            if Key(t) == "" || Key(t) in seen || Barred(t, barred) then Keep(rest, seen, barred)
            else [t] + Keep(rest, seen + {Key(t)}, barred)
  {
    assert ([t] + rest)[1..] == rest;
  }

  /** The tools of all matching rules, each key once. */
  method CollectTools(rules: seq<Rule>, model: string, kept: seq<Tool>, seen: set<string>, barred: set<string>)
    returns (tools: seq<Tool>)
    ensures tools == kept + Keep(Offered(rules, model), seen, barred)
  {
    hide Keep, Offered, RuleMatches;
    tools := kept;
    var known := seen;
    assert rules[0..] == rules;
    for n := 0 to |rules|
      invariant tools + Keep(Offered(rules[n..], model), known, barred) ==
                kept + Keep(Offered(rules, model), seen, barred)
    {
      OfferedStep(rules, n, model);
      var matches := ServerToolRuleMatches(rules[n], model);
      if matches {
        tools, known := KeepTools(rules[n].tools, tools, known, barred);
      }
    }
    NothingLeft(rules, model, known, barred);
  }

  lemma OfferedStep(rules: seq<Rule>, n: nat, model: string)
    requires n < |rules|
    ensures Offered(rules[n..], model) ==
            if RuleMatches(rules[n], model) then rules[n].tools + Offered(rules[n + 1..], model)
            else Offered(rules[n + 1..], model)
  {
    hide RuleMatches;
    assert rules[n..][1..] == rules[n + 1..];
  }

  lemma NothingLeft(rules: seq<Rule>, model: string, known: set<string>, barred: set<string>)
    ensures Keep(Offered(rules[|rules|..], model), known, barred) == []
  {}

  /** A request body's tool list; it may be absent or not a list. */
  class ToolRequest {
    var tools: Option<seq<Entry>>

    constructor (tools: Option<seq<Entry>>)
      ensures this.tools == tools
    {
      this.tools := tools;
    }

    function Entries(): seq<Entry>
      reads this
    {
      if tools.Some? then tools.value else []
    }
  }

  method ClientTools(entries: seq<Entry>) returns (existing: set<string>, functions: set<string>)
    ensures existing == Declared(entries) && functions == ClientFunctions(entries)
  {
    hide Key, ClientName;
    existing, functions := {}, {};
    for n := 0 to |entries|
      invariant existing == Declared(entries[..n]) && functions == ClientFunctions(entries[..n])
    {
      assert entries[..n + 1] == entries[..n] + [entries[n]];
      if entries[n].Object? {
        var tool := entries[n].tool;
        if Key(tool) != "" {
          existing := existing + {Key(tool)};
        }
        if ClientName(tool) != "" {
          functions := functions + {ClientName(tool)};
        }
      }
    }
    assert entries[..|entries|] == entries;
  }

  /** What effectiveServerTools keeps of one model's tools. */
  method KindsInOrder(ts: seq<Tool>) returns (types: seq<string>)
    ensures types == Kinds(ts, {})
  {
    hide Kind;
    var seen: set<string> := {};
    types := [];
    assert ts[0..] == ts;
    for n := 0 to |ts|
      invariant types + Kinds(ts[n..], seen) == Kinds(ts, {})
    {
      assert ts[n..][1..] == ts[n + 1..];
      var kind := Kind(ts[n]);
      if kind != "" && kind !in seen {
        seen, types := seen + {kind}, types + [kind];
      }
    }
  }

  /** The tools one model's exact rule gets. */
  method ChooseTools(resolved: seq<Tool>, types: seq<string>) returns (tools: seq<Tool>)
    ensures tools == Chosen(resolved, types)
  {
    hide Kind, HasKind, Missing, Selected;
    var retained;
    tools, retained := RetainTools(resolved, types);
    tools := AddBareTools(tools, types, retained);
  }

  method RetainTools(resolved: seq<Tool>, types: seq<string>) returns (tools: seq<Tool>, retained: set<string>)
    ensures tools == Selected(resolved, types) && forall k :: k in retained <==> HasKind(tools, k)
  {
    hide Kind, HasKind, Selected;
    tools, retained := [], {};
    NoKinds();
    assert resolved[0..] == resolved;
    for n := 0 to |resolved|
      invariant tools + Selected(resolved[n..], types) == Selected(resolved, types)
      invariant forall k :: k in retained <==> HasKind(tools, k)
    {
      SelectedStep(resolved, n, types);
      if Kind(resolved[n]) in types {
        MoreKinds(tools, resolved[n]);
        tools, retained := tools + [resolved[n]], retained + {Kind(resolved[n])};
      }
    }
    SelectedStep(resolved, |resolved|, types);
  }

  lemma SelectedStep(ts: seq<Tool>, n: nat, types: seq<string>)
    requires n <= |ts|
    ensures n == |ts| ==> Selected(ts[n..], types) == []
    ensures n < |ts| ==>
              Selected(ts[n..], types) == (if Kind(ts[n]) in types then [ts[n]] else []) + Selected(ts[n + 1..], types)
  {
    hide Kind;
    if n < |ts| { assert ts[n..][1..] == ts[n + 1..]; }
  }

  lemma NoKinds()
    ensures forall k :: !HasKind([], k)
  {}

  lemma MoreKinds(ts: seq<Tool>, t: Tool)
    ensures forall k :: HasKind(ts + [t], k) <==> HasKind(ts, k) || k == Kind(t)
  {
    hide Kind;
    forall k | HasKind(ts, k) || k == Kind(t) ensures HasKind(ts + [t], k) {
      if HasKind(ts, k) {
        var u :| u in ts && Kind(u) == k;
        assert u in ts + [t];
      } else {
        assert t in ts + [t];
      }
    }
  }

  method AddBareTools(kept: seq<Tool>, types: seq<string>, retained: set<string>) returns (tools: seq<Tool>)
    requires forall k :: k in retained <==> HasKind(kept, k)
    ensures tools == kept + Missing(types, kept)
  {
    hide HasKind;
    tools := kept;
    assert types[0..] == types;
    for n := 0 to |types|
      invariant tools + Missing(types[n..], kept) == kept + Missing(types, kept)
    {
      assert types[n..][1..] == types[n + 1..];
      if types[n] !in retained {
        tools := tools + [Bare(types[n])];
      }
    }
  }

  method CleanKinds(kinds: seq<string>) returns (types: seq<string>)
    ensures types == Cleaned(kinds, {})
  {
    hide Trim;
    var seen: set<string> := {};
    types := [];
    assert kinds[0..] == kinds;
    for n := 0 to |kinds|
      invariant types + Cleaned(kinds[n..], seen) == Cleaned(kinds, {})
    {
      assert kinds[n..][1..] == kinds[n + 1..];
      var trimmed := Trim(kinds[n]);
      if trimmed != "" && trimmed !in seen {
        seen, types := seen + {trimmed}, types + [trimmed];
      }
    }
  }

  /** A working copy of the configuration. */
  class Settings {
    var models: seq<string>
    var rules: seq<Rule>

    constructor (c: Config)
      ensures Value() == c
    {
      models, rules := c.models, c.rules;
    }

    function Value(): Config
      reads this
    {
      Config(models, rules)
    }

    method ResolvedServerTools(model: string) returns (tools: seq<Tool>)
      ensures tools == Resolved(rules, model)
    {
      tools := CollectTools(rules, model, [], {}, {});
    }

    method EffectiveServerTools() returns (effective: map<string, seq<string>>)
      ensures effective == Effective(Value())
    {
      hide Kinds, Resolved;
      effective := map[];
      for n := 0 to |models|
        invariant forall id :: id in effective <==> id in models[..n]
        invariant forall id :: id in effective ==> effective[id] == Kinds(Resolved(rules, id), {})
      {
        assert models[..n + 1] == models[..n] + [models[n]];
        var tools := ResolvedServerTools(models[n]);
        var types := KindsInOrder(tools);
        effective := effective[models[n] := types];
      }
      assert models[..|models|] == models;
    }

    method FlattenServerToolRules(effective: map<string, seq<string>>)
      modifies this`rules
      ensures rules == FlatRules(models, old(rules), effective)
    {
      hide Chosen, Resolved, FlatRules;
      var flat: seq<Rule> := [];
      assert models[0..] == models;
      for n := 0 to |models|
        invariant rules == old(rules)
        invariant flat + FlatRules(models[n..], rules, effective) == FlatRules(models, rules, effective)
      {
        FlatStep(models, n, rules, effective);
        var types := TypesOf(effective, models[n]);
        if types != [] {
          var resolved := ResolvedServerTools(models[n]);
          var tools := ChooseTools(resolved, types);
          flat := flat + [Rule([models[n]], tools)];
        }
      }
      FlatStep(models, |models|, rules, effective);
      rules := flat;
    }
  }

  lemma FlatStep(models: seq<string>, n: nat, rules: seq<Rule>, effective: map<string, seq<string>>)
    requires n <= |models|
    ensures n == |models| ==> FlatRules(models[n..], rules, effective) == []
    ensures n < |models| ==>
              var types := TypesOf(effective, models[n]);
              FlatRules(models[n..], rules, effective) ==
              (if types == [] then [] else [Rule([models[n]], Chosen(Resolved(rules, models[n]), types))])
              + FlatRules(models[n + 1..], rules, effective)
  {
    hide Chosen, Resolved;
    if n < |models| { assert models[n..][1..] == models[n + 1..]; }
  }

  class ToolService {
    var cfg: Config

    constructor (cfg: Config)
      ensures this.cfg == cfg
    {
      this.cfg := cfg;
    }

    /** A client's own tools stay first and unchanged; a body that gets no tool is not touched. */
    method ApplyServerTools(request: ToolRequest, model: string)
      modifies request
      ensures var added := Added(old(request.Entries()), Offered(cfg.rules, model));
              request.tools == if added == [] then old(request.tools) else Some(old(request.Entries()) + Wrapped(added))
    {
      hide Declared, ClientFunctions;
      if cfg.rules == [] || Trim(model) == "" {
        NothingOffered(cfg.rules, model);
        return;
      }
      hide Offered, Keep, Trim, Wrapped;
      var entries := request.Entries();
      var existing, functions := ClientTools(entries);
      var added := CollectTools(cfg.rules, model, [], existing, functions);
      assert added == Added(entries, Offered(cfg.rules, model));
      if added != [] {
        request.tools := Some(entries + Wrapped(added));
      }
    }

    /** Replaces the selection of one model. A save that is refused, or whose settings cannot be
        written, changes nothing; an error after that leaves the new rules in force. */
    method SaveModelServerTools(model: string, kinds: seq<string>, io: Commit) returns (failure: Option<SaveError>)
      modifies this
      ensures failure == SaveFailure(old(cfg), model, kinds, io) && cfg == InForce(old(cfg), model, kinds, io)
    {
      if Trim(model) == "" { return Some(BlankModel); }
      if model !in cfg.models { return Some(UnknownModel); }
      var next := new Settings(cfg);
      var effective := next.EffectiveServerTools();
      var types := CleanKinds(kinds);
      next.FlattenServerToolRules(effective[model := types]);
      failure := SaveConfig(next.Value(), io);
    }

    /** The settings file first, then memory, then what depends on it. */
    method SaveConfig(next: Config, io: Commit) returns (failure: Option<SaveError>)
      modifies this
      ensures cfg == if ValidConfig(next) && io.written then next else old(cfg)
      ensures failure == if !ValidConfig(next) then Some(InvalidRules) else if !io.written then Some(NotWritten)
                         else if io.registered && io.reconciled then None else Some(NotPropagated)
    {
      if !ValidConfig(next) { return Some(InvalidRules); }
      if !io.written { return Some(NotWritten); }
      cfg := next;
      if !io.registered || !io.reconciled { return Some(NotPropagated); }
      return None;
    }
  }

  lemma {:induction false} NothingOffered(rules: seq<Rule>, model: string)
    requires rules == [] || Trim(model) == ""
    ensures Offered(rules, model) == []
  {
    if rules != [] { NothingOffered(rules[1..], model); }
  }
}
