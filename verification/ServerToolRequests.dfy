/** What a request is handed on top of its own tools, told from its entries and the rules that match. */
module ServerToolRequests {
  import opened Common
  import opened ModelPatterns
  import opened ServerTools
  import opened ServerToolEdits

  /** The request declares a tool of the same kind and name itself. */
  predicate DeclaresSame(entries: seq<Entry>, t: Tool) {
    exists e :: e in entries && e.Object? && Kind(e.tool) == Kind(t) && Name(e.tool) == Name(t)
  }

  /** The request has a function of its own of this name, which stands in its function object or else beside. */
  predicate HasFunction(entries: seq<Entry>, name: string) {
    exists e :: e in entries && e.Object? && Kind(e.tool) == "function"
      && name == if Trim(e.tool.functionName) != "" then Trim(e.tool.functionName) else Trim(e.tool.name)
  }

  /** It has a function of the name that this gateway tool goes by. */
  ghost predicate Overrides(entries: seq<Entry>, t: Tool) {
    exists name :: Reserved(name) && Kind(t) == "vercel:" + name && HasFunction(entries, name)
  }

  /** A tool with a kind or a name, which the request does not override. */
  ghost predicate Eligible(entries: seq<Entry>, t: Tool) { (Kind(t) != "" || Name(t) != "") && !Overrides(entries, t) }

  predicate Plain(t: Tool) { NUL !in Kind(t) }

  lemma BuiltinIs(t: Tool, name: string)
    ensures Builtin(t) == name != "" <==> Reserved(name) && Kind(t) == "vercel:" + name
  {
    var k := Kind(t);
    hide Kind;
    if Reserved(name) && k == "vercel:" + name {
      assert k[..7] == "vercel:" && k[7..] == name;
    }
    if Builtin(t) == name != "" { assert k == k[..7] + k[7..]; }
  }

  lemma OverridesIff(entries: seq<Entry>, t: Tool)
    ensures Overrides(entries, t) <==> Barred(t, ClientFunctions(entries))
  {
    BuiltinIs(t, Builtin(t));
    forall name ensures Reserved(name) && Kind(t) == "vercel:" + name <==> Builtin(t) == name != "" {
      BuiltinIs(t, name);
    }
    hide Kind, Builtin, Reserved, Trim;
    assert forall name :: name != "" ==> (HasFunction(entries, name) <==> name in ClientFunctions(entries));
  }

  /** A declared key is a declared kind and name, as long as kinds have no NUL in them. */
  lemma DeclaredIff(entries: seq<Entry>, t: Tool)
    requires Plain(t) && (forall e :: e in entries && e.Object? ==> Plain(e.tool)) && Key(t) != ""
    ensures DeclaresSame(entries, t) <==> Key(t) in Declared(entries)
  {
    forall e | e in entries && e.Object? && Key(e.tool) == Key(t)
      ensures Kind(e.tool) == Kind(t) && Name(e.tool) == Name(t)
    {
      KeyTellsKind(e.tool, t);
    }
    forall e | e in entries && e.Object? && Kind(e.tool) == Kind(t) && Name(e.tool) == Name(t)
      ensures Key(e.tool) == Key(t) {}
    hide Kind, Name, Key;
  }

  ghost predicate HasSame(ts: seq<Tool>, t: Tool) { exists u :: u in ts && Key(u) == Key(t) }

  lemma SameIn(ts: seq<Tool>, t: Tool) returns (u: Tool)
    requires HasSame(ts, t)
    ensures u in ts && Key(u) == Key(t)
  {
    u :| u in ts && Key(u) == Key(t);
  }

  /** What is handed out comes from matching rules, has a key that neither the request nor another tool
      handed out has, and is not overridden; and of every such key something is handed out. */
  lemma AddedIff(entries: seq<Entry>, ts: seq<Tool>)
    ensures var added := Added(entries, ts);
            && DistinctKeys(added)
            && (forall t :: t in added ==> t in ts && Eligible(entries, t) && Key(t) !in Declared(entries))
            && (forall t :: t in ts && Eligible(entries, t) && Key(t) !in Declared(entries) ==> HasSame(added, t))
  {
    hide Key, Barred, Overrides;
    var added := Added(entries, ts);
    KeepIsNormal(ts, Declared(entries), ClientFunctions(entries));
    KeepsUnbarred(ts, Declared(entries), ClientFunctions(entries));
    forall t ensures Overrides(entries, t) <==> Barred(t, ClientFunctions(entries)) { OverridesIff(entries, t); }
    forall t ensures Key(t) == "" <==> Kind(t) == "" && Name(t) == "" { KeyIsBlank(t); }
    hide Kind, Name, Declared, ClientFunctions;
    forall t | t in ts && Eligible(entries, t) && Key(t) !in Declared(entries)
      ensures HasSame(added, t)
    {
      var j :| 0 <= j < |ts| && ts[j] == t;
      KeepsKey(ts, Declared(entries), ClientFunctions(entries), j);
    }
  }

  lemma KeyIsBlank(t: Tool)
    ensures Key(t) == "" <==> Kind(t) == "" && Name(t) == ""
  {}

  /** Some rule with a pattern for the model has the tool. */
  ghost predicate Offers(rules: seq<Rule>, model: string, t: Tool) {
    exists r, p :: r in rules && p in r.models && Accepts(p, model) && t in r.tools
  }

  lemma {:induction false} OfferedIff(rules: seq<Rule>, model: string, t: Tool)
    ensures t in Offered(rules, model) <==> Offers(rules, model, t)
  {
    hide Accepts;
    if rules != [] {
      OfferedIff(rules[1..], model, t);
      assert forall r :: r in rules <==> r == rules[0] || r in rules[1..];
    }
  }

  predicate Named(t: Tool, kind: string, name: string) { Kind(t) == kind && Name(t) == name }

  predicate AllPlain(entries: seq<Entry>, rules: seq<Rule>) {
    && (forall e :: e in entries && e.Object? ==> Plain(e.tool))
    && (forall r, t :: r in rules && t in r.tools ==> Plain(t))
  }

  /** Where kinds have no NUL in them: a request is handed a tool of some kind and name if and only if a
      rule for its model has one that is not overridden, and the request declares none itself. */
  lemma ServedIff(entries: seq<Entry>, rules: seq<Rule>, model: string, kind: string, name: string)
    requires AllPlain(entries, rules)
    ensures (exists t :: t in Added(entries, Offered(rules, model)) && Named(t, kind, name)) <==>
            exists t :: Offers(rules, model, t) && Named(t, kind, name) && Eligible(entries, t)
                        && !DeclaresSame(entries, t)
  {
    var added := Added(entries, Offered(rules, model));
    forall t | t in added ensures Offers(rules, model, t) && Eligible(entries, t) && !DeclaresSame(entries, t) {
      AddedIsOffered(entries, rules, model, t);
    }
    forall t | Offers(rules, model, t) && Named(t, kind, name) && Eligible(entries, t) && !DeclaresSame(entries, t)
      ensures exists u :: u in added && Named(u, kind, name)
    {
      var u := OfferedIsAdded(entries, rules, model, t);
    }
    hide *;
  }

  lemma AddedIsOffered(entries: seq<Entry>, rules: seq<Rule>, model: string, t: Tool)
    requires AllPlain(entries, rules) && t in Added(entries, Offered(rules, model))
    ensures Offers(rules, model, t) && Eligible(entries, t) && !DeclaresSame(entries, t)
  {
    AddedIff(entries, Offered(rules, model));
    OfferedIff(rules, model, t);
    KeyIsBlank(t);
    DeclaredIff(entries, t);
    hide Kind, Name, Key, Added, Declared, DeclaresSame, Overrides, Offered, Accepts;
  }

  lemma OfferedIsPlain(entries: seq<Entry>, rules: seq<Rule>, model: string, t: Tool)
    requires AllPlain(entries, rules) && Offers(rules, model, t)
    ensures Plain(t) && forall e :: e in entries && e.Object? ==> Plain(e.tool)
  {
    hide Accepts, Plain;
  }

  lemma OfferedIsAdded(entries: seq<Entry>, rules: seq<Rule>, model: string, t: Tool) returns (u: Tool)
    requires AllPlain(entries, rules) && Offers(rules, model, t) && Eligible(entries, t) && !DeclaresSame(entries, t)
    ensures u in Added(entries, Offered(rules, model)) && Named(u, Kind(t), Name(t))
  {
    hide *;
    AddedIff(entries, Offered(rules, model));
    OfferedIff(rules, model, t);
    OfferedIsPlain(entries, rules, model, t);
    EligibleHasKey(entries, t);
    DeclaredIff(entries, t);
    u := SameIn(Added(entries, Offered(rules, model)), t);
    OfferedIff(rules, model, u);
    OfferedIsPlain(entries, rules, model, u);
    SameKeyIsNamed(t, u);
  }

  lemma EligibleHasKey(entries: seq<Entry>, t: Tool)
    requires Eligible(entries, t)
    ensures Key(t) != ""
  {
    hide Overrides;
  }

  lemma SameKeyIsNamed(t: Tool, u: Tool)
    requires Plain(t) && Plain(u) && Key(t) == Key(u)
    ensures Named(u, Kind(t), Name(t))
  {
    KeyTellsKind(t, u);
  }

  /** And it is handed one such tool at most. */
  lemma ServedOnce(entries: seq<Entry>, ts: seq<Tool>, i: nat, j: nat, kind: string, name: string)
    requires i < j < |Added(entries, ts)|
    ensures !(Named(Added(entries, ts)[i], kind, name) && Named(Added(entries, ts)[j], kind, name))
  {
    AddedIff(entries, ts);
    var t, u := Added(entries, ts)[i], Added(entries, ts)[j];
    if Named(t, kind, name) && Named(u, kind, name) { SameKey(t, u, kind, name); }
    hide Named, Key, Added, Eligible, Declared;
  }

  lemma SameKey(t: Tool, u: Tool, kind: string, name: string)
    requires Named(t, kind, name) && Named(u, kind, name)
    ensures Key(t) == Key(u)
  {}
}
