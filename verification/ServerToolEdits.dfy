/** What rewriting the rules to one rule per model does to the tools that models receive. */
module ServerToolEdits {
  import opened Common
  import opened ModelPatterns
  import opened ServerTools

  // ---------------------------------------------------------------- exact patterns

  lemma {:induction false} LiteralScan(p: string, m: string)
    requires StarFree(p)
    ensures Scan(p, m, NoStar) <==> p == m
  {
    if p != "" && m != "" && p[0] == m[0] {
      LiteralScan(p[1..], m[1..]);
      assert p == [p[0]] + p[1..] && m == [m[0]] + m[1..];
    } else if m == "" && p != "" {
      assert p[0] != '*';
    }
  }

  lemma {:induction false} TrimLeftStarFree(s: string)
    requires StarFree(s)
    ensures StarFree(TrimLeft(s))
  {
    if s != "" && IsSpace(s[0]) { TrimLeftStarFree(s[1..]); }
  }

  lemma {:induction false} TrimRightStarFree(s: string)
    requires StarFree(s)
    ensures StarFree(TrimRight(s))
  {
    if s != "" && IsSpace(s[|s| - 1]) { TrimRightStarFree(s[..|s| - 1]); }
  }

  lemma ExactPattern(id: string, x: string)
    requires StarFree(id)
    ensures Accepts(id, x) <==> Trim(id) == Trim(x) != ""
  {
    TrimLeftStarFree(id);
    TrimRightStarFree(TrimLeft(id));
    LiteralScan(Trim(id), Trim(x));
  }

  lemma {:induction false} OfferedTrimmed(rules: seq<Rule>, x: string, y: string)
    requires Trim(x) == Trim(y)
    ensures Offered(rules, x) == Offered(rules, y)
  {
    hide Trim;
    if rules != [] {
      assert forall p :: Accepts(p, x) == Accepts(p, y);
      OfferedTrimmed(rules[1..], x, y);
    }
  }

  lemma OfferedHead(models: seq<string>, rules: seq<Rule>, effective: map<string, seq<string>>, x: string)
    requires models != [] && StarFree(models[0]) && Trim(x) != ""
    ensures Offered(FlatRules(models, rules, effective), x) ==
            (if Trim(models[0]) == Trim(x) then Given(rules, effective, models[0]) else [])
            + Offered(FlatRules(models[1..], rules, effective), x)
  {
    hide Trim, Chosen, Accepts, StarFree, Resolved;
    var id, types := models[0], TypesOf(effective, models[0]);
    ExactPattern(id, x);
    if types != [] {
      var rule := Rule([id], Chosen(Resolved(rules, id), types));
      var flat := FlatRules(models, rules, effective);
      assert flat[0] == rule && flat[1..] == FlatRules(models[1..], rules, effective);
      assert rule.models[0] == id;
      assert RuleMatches(rule, x) <==> Accepts(id, x);
    } else {
      assert FlatRules(models, rules, effective) == FlatRules(models[1..], rules, effective);
    }
  }

  function Given(rules: seq<Rule>, effective: map<string, seq<string>>, id: string): seq<Tool> {
    if TypesOf(effective, id) == [] then [] else Chosen(Resolved(rules, id), TypesOf(effective, id))
  }

  /** After the rewriting a model is offered just the tools chosen for it. */
  lemma {:induction false} OfferedFlat(models: seq<string>, rules: seq<Rule>, effective: map<string, seq<string>>,
                                       x: string)
    requires ExactModels(models) && Trim(x) != ""
    ensures var flat := Offered(FlatRules(models, rules, effective), x);
            && (forall id :: id in models && Trim(id) == Trim(x) ==> flat == Given(rules, effective, id))
            && ((forall id :: id in models ==> Trim(id) != Trim(x)) ==> flat == [])
  {
    hide Trim, StarFree, Given;
    if models != [] {
      var id := models[0];
      OfferedHead(models, rules, effective, x);
      hide Offered, FlatRules;
      OfferedFlat(models[1..], rules, effective, x);
      forall other | other in models && other != id ensures Trim(other) != Trim(id) {
        var i :| 1 <= i < |models| && models[i] == other;
      }
      assert forall other :: other in models <==> other == id || other in models[1..];
    }
  }

  // ---------------------------------------------------------------- first definition wins

  predicate Normal(ts: seq<Tool>, seen: set<string>) {
    DistinctKeys(ts) && forall t :: t in ts ==> Key(t) != "" && Key(t) !in seen
  }

  lemma {:induction false} KeepOfNormal(ts: seq<Tool>, seen: set<string>)
    requires Normal(ts, seen)
    ensures Keep(ts, seen, {}) == ts
  {
    hide Key;
    if ts != [] {
      forall t | t in ts[1..] ensures Key(t) !in seen + {Key(ts[0])} {
        var i :| 1 <= i < |ts| && ts[i] == t;
      }
      KeepOfNormal(ts[1..], seen + {Key(ts[0])});
    }
  }

  lemma {:induction false} KeepIsNormal(ts: seq<Tool>, seen: set<string>, barred: set<string>)
    ensures Normal(Keep(ts, seen, barred), seen)
    ensures forall t :: t in Keep(ts, seen, barred) ==> t in ts
  {
    hide Key, Barred;
    if ts != [] {
      KeepIsNormal(ts[1..], seen, barred);
      KeepIsNormal(ts[1..], seen + {Key(ts[0])}, barred);
    }
  }

  lemma {:induction false} OfferedFromRules(rules: seq<Rule>, x: string)
    ensures forall t :: t in Offered(rules, x) ==> exists r :: r in rules && t in r.tools
  {
    if rules != [] { OfferedFromRules(rules[1..], x); }
  }

  lemma ResolvedOfValid(c: Config, x: string)
    requires ValidConfig(c)
    ensures Normal(Resolved(c.rules, x), {}) && forall t :: t in Resolved(c.rules, x) ==> Kind(t) != ""
  {
    hide Normal, Kind;
    KeepIsNormal(Offered(c.rules, x), {}, {});
    OfferedFromRules(c.rules, x);
  }

  // ---------------------------------------------------------------- unedited models

  lemma {:induction false} KindsCover(ts: seq<Tool>, seen: set<string>)
    ensures forall t :: t in ts && Kind(t) != "" ==> Kind(t) in seen || Kind(t) in Kinds(ts, seen)
    ensures forall k :: k in Kinds(ts, seen) ==> HasKind(ts, k)
  {
    hide Kind;
    if ts != [] {
      var rest := ts[1..];
      assert forall t :: t in ts <==> t == ts[0] || t in rest;
      KindsCover(rest, seen);
      KindsCover(rest, seen + {Kind(ts[0])});
    }
  }

  lemma {:induction false} SelectedKinds(ts: seq<Tool>, types: seq<string>)
    ensures forall t :: t in Selected(ts, types) <==> t in ts && Kind(t) in types
    ensures (forall t :: t in ts ==> Kind(t) in types) ==> Selected(ts, types) == ts
  {
    hide Kind;
    if ts != [] {
      assert ts == [ts[0]] + ts[1..];
      SelectedKinds(ts[1..], types);
    }
  }

  lemma {:induction false} SelectedIsNormal(ts: seq<Tool>, types: seq<string>, seen: set<string>)
    requires Normal(ts, seen)
    ensures Normal(Selected(ts, types), seen)
  {
    hide Kind, Key;
    if ts != [] {
      forall t | t in ts[1..] ensures Key(t) != Key(ts[0]) {
        var i :| 1 <= i < |ts| && ts[i] == t;
      }
      SelectedIsNormal(ts[1..], types, seen + {Key(ts[0])});
    }
  }

  lemma {:induction false} NoneMissing(types: seq<string>, kept: seq<Tool>)
    requires forall k :: k in types ==> HasKind(kept, k)
    ensures Missing(types, kept) == []
  {
    hide HasKind;
    if types != [] { NoneMissing(types[1..], kept); }
  }

  lemma ChosenUnedited(resolved: seq<Tool>)
    requires forall t :: t in resolved ==> Kind(t) != ""
    ensures Chosen(resolved, Kinds(resolved, {})) == resolved
    ensures Kinds(resolved, {}) == [] <==> resolved == []
  {
    hide Kind;
    KindsCover(resolved, {});
    SelectedKinds(resolved, Kinds(resolved, {}));
    NoneMissing(Kinds(resolved, {}), resolved);
    if resolved != [] { assert resolved[0] in resolved; }
  }

  /** A model whose selection is not edited keeps its tools, in order, under any name it is asked by. */
  lemma UneditedKeepsTools(c: Config, effective: map<string, seq<string>>, id: string, x: string)
    requires ValidConfig(c) && ExactModels(c.models)
    requires id in c.models && id in effective && effective[id] == Effective(c)[id] && Trim(x) == Trim(id)
    ensures Resolved(FlatRules(c.models, c.rules, effective), x) == Resolved(c.rules, x)
  {
    hide Trim, Chosen, Keep, Kinds, FlatRules, ExactModels, Normal;
    ResolvedOfValid(c, id);
    ChosenUnedited(Resolved(c.rules, id));
    OfferedTrimmed(c.rules, id, x);
    OfferedFlat(c.models, c.rules, effective, x);
    KeepOfNormal(Resolved(c.rules, id), {});
  }

  /** Rewriting the rules changes no configured model's tools. */
  lemma {:induction false} FlattenPreserves(c: Config, id: string, x: string)
    requires ValidConfig(c) && ExactModels(c.models) && id in c.models && Trim(x) == Trim(id)
    ensures Resolved(FlatRules(c.models, c.rules, Effective(c)), x) == Resolved(c.rules, x)
  {
    UneditedKeepsTools(c, Effective(c), id, x);
  }

  // ---------------------------------------------------------------- the edited model

  /** No kind contains NUL, so that a key tells the kind it was made from. */
  predicate Separated(ts: seq<Tool>) { forall t :: t in ts ==> NUL !in Kind(t) }

  lemma KeyTellsKind(t: Tool, u: Tool)
    requires NUL !in Kind(t) && NUL !in Kind(u) && Key(t) == Key(u)
    ensures Kind(t) == Kind(u) && Name(t) == Name(u)
  {
    hide Kind, Name;
    if Key(t) != "" {
      var k, a, b := Key(t), |Kind(t)|, |Kind(u)|;
      assert k[a] == NUL && k[b] == NUL;
      assert forall i :: 0 <= i < a ==> k[i] == Kind(t)[i];
      assert forall i :: 0 <= i < b ==> k[i] == Kind(u)[i];
      assert a == b;
      assert k[..a] == Kind(t) && k[..b] == Kind(u);
      assert k[a + 1..] == Name(t) && k[b + 1..] == Name(u);
    }
  }

  predicate Asked(kinds: seq<string>, k: string) { exists raw :: raw in kinds && Trim(raw) == k }

  lemma {:induction false} CleanedKinds(kinds: seq<string>, seen: set<string>)
    ensures forall k :: k in Cleaned(kinds, seen) <==> k !in seen && k != "" && Asked(kinds, k)
    ensures forall i, j :: 0 <= i < j < |Cleaned(kinds, seen)| ==> Cleaned(kinds, seen)[i] != Cleaned(kinds, seen)[j]
  {
    hide Trim;
    if kinds != [] {
      assert forall raw :: raw in kinds <==> raw == kinds[0] || raw in kinds[1..];
      assert forall k :: Asked(kinds, k) <==> k == Trim(kinds[0]) || Asked(kinds[1..], k);
      CleanedKinds(kinds[1..], seen);
      CleanedKinds(kinds[1..], seen + {Trim(kinds[0])});
    }
  }

  /** Trimmed, nonempty and without repetitions, as a cleaned selection is. */
  predicate Fresh(types: seq<string>) {
    && (forall k :: k in types ==> Trim(k) == k != "")
    && (forall i, j :: 0 <= i < j < |types| ==> types[i] != types[j])
  }

  lemma BareKey(kind: string)
    requires Trim(kind) == kind != ""
    ensures Kind(Bare(kind)) == kind && Name(Bare(kind)) == "" && Key(Bare(kind)) == kind + [NUL]
  {}

  lemma {:induction false} MissingKinds(types: seq<string>, kept: seq<Tool>)
    requires Fresh(types)
    ensures forall t :: t in Missing(types, kept) <==>
              exists k :: k in types && t == Bare(k) && !HasKind(kept, k)
    ensures Normal(Missing(types, kept), {})
  {
    hide Trim, Kind, Key, Name;
    if types != [] {
      var rest := types[1..];
      assert forall k :: k in types <==> k == types[0] || k in rest;
      MissingKinds(rest, kept);
      forall k | k in types ensures Key(Bare(k)) == k + [NUL] { BareKey(k); }
      forall t | t in Missing(rest, kept) ensures Key(t) != types[0] + [NUL] {
        var k :| k in rest && t == Bare(k);
        assert (k + [NUL])[..|k|] == k && (types[0] + [NUL])[..|types[0]|] == types[0];
      }
    }
  }

  lemma {:induction false} TrimTwice(s: string)
    ensures Trim(Trim(s)) == Trim(s)
  {
    TrimIsTidy(s);
    TrimIsTidy(Trim(s));
  }

  /** The chosen tools have the kinds asked for; they were there before, or are bare declarations. */
  lemma ChosenKinds(resolved: seq<Tool>, types: seq<string>)
    requires Fresh(types)
    ensures forall t :: t in resolved && Kind(t) in types ==> t in Chosen(resolved, types)
    ensures forall t :: t in Chosen(resolved, types) ==> Kind(t) in types && (t in resolved || t == Bare(Kind(t)))
    ensures forall k :: k in types ==> HasKind(Chosen(resolved, types), k)
  {
    hide Trim, Kind, Key, Name;
    var kept := Selected(resolved, types);
    SelectedKinds(resolved, types);
    MissingKinds(types, kept);
    forall k | k in types ensures Kind(Bare(k)) == k { BareKey(k); }
    forall k | k in types ensures HasKind(Chosen(resolved, types), k) {
      if !HasKind(kept, k) { assert Bare(k) in Missing(types, kept); }
    }
  }

  /** Exactly what a save does to the configuration in force, and what its errors mean for it. */
  lemma SaveTakesEffectIff(c: Config, model: string, kinds: seq<string>, io: Commit)
    ensures var failure, after := SaveFailure(c, model, kinds, io), InForce(c, model, kinds, io);
            && (after == c <==> !Commits(c, model, kinds, io) || Edited(c, model, kinds) == c)
            && (failure.None? || failure == Some(NotPropagated) <==> Commits(c, model, kinds, io))
            && (failure == Some(NotPropagated) ==>
                  after == Edited(c, model, kinds) && !(io.registered && io.reconciled))
  {}

  /** A save that ends with an error and yet has taken effect: the settings were written, but some
      credential could not be registered anew. */
  lemma ErrorAfterCommit() returns (c: Config, model: string, kinds: seq<string>)
    ensures var io := Commit(true, false, true);
            && ValidConfig(c) && ExactModels(c.models) && SaveFailure(c, model, kinds, io) == Some(NotPropagated)
            && InForce(c, model, kinds, io) != c && HasKind(Resolved(InForce(c, model, kinds, io).rules, model), "x")
  {
    c, model, kinds := Config(["m"], []), "m", ["x"];
    TrimIsTidy("m");
    FlatX();
    hide FlatRules, Cleaned, Effective;
    var next := Edited(c, model, kinds);
    assert next == Config(["m"], [Rule(["m"], [Bare("x")])]);
    BareX();
    hide Kind, Key;
    assert ValidPattern("m") && ValidRule(next.rules[0]);
    EditTouchesOneModel(c, model, kinds, Commit(true, false, true));
    assert Resolved(c.rules, "m") == [];
    KeepOfNormal([Bare("x")], {});
    assert Bare("x") in [Bare("x")];
  }

  lemma BareX()
    ensures Kind(Bare("x")) == "x" && Key(Bare("x")) != ""
  {
    TrimIsTidy("x");
    BareKey("x");
  }

  lemma FlatX()
    ensures var c := Config(["m"], []);
            && FlatRules(c.models, c.rules, Effective(c)["m" := Cleaned(["x"], {})]) == [Rule(["m"], [Bare("x")])]
            && Cleaned(["x"], {}) == ["x"] && Chosen([], ["x"]) == [Bare("x")]
  {
    var c := Config(["m"], []);
    TrimIsTidy("x");
    assert ["x"][1..] == [] && Cleaned([], {"x"}) == [];
    assert Resolved(c.rules, "m") == [];
    assert Missing(["x"][1..], []) == [];
    assert Chosen([], ["x"]) == [Bare("x")] && Cleaned(["x"], {}) == ["x"];
    var effective := Effective(c)["m" := ["x"]];
    hide Chosen, Cleaned, Resolved;
    assert c.models[1..] == [] && FlatRules([], c.rules, effective) == [] && TypesOf(effective, "m") == ["x"];
    assert FlatRules(c.models, c.rules, effective) == [Rule(["m"], [Bare("x")])] + [];
  }

  /** A save that takes effect, whether or not an error follows: every other model keeps its tools
      in order, and the edited one gets those chosen for it. */
  lemma EditTouchesOneModel(c: Config, model: string, kinds: seq<string>, io: Commit)
    requires ValidConfig(c) && ExactModels(c.models) && Commits(c, model, kinds, io)
    ensures var after := InForce(c, model, kinds, io);
            && after.models == c.models && model in c.models && ValidConfig(after)
            && (forall id :: id in c.models && id != model ==> Resolved(after.rules, id) == Resolved(c.rules, id))
            && Resolved(after.rules, model) == Keep(Chosen(Resolved(c.rules, model), Cleaned(kinds, {})), {}, {})
  {
    hide Trim, ExactModels, FlatRules, Cleaned, ValidConfig, Keep, Chosen;
    var effective := Effective(c)[model := Cleaned(kinds, {})];
    forall id | id in c.models && id != model
      ensures Resolved(FlatRules(c.models, c.rules, effective), id) == Resolved(c.rules, id)
    {
      UneditedKeepsTools(c, effective, id, id);
    }
    OfferedFlat(c.models, c.rules, effective, model);
    NothingChosen(Resolved(c.rules, model));
  }

  lemma {:induction false} NothingChosen(resolved: seq<Tool>)
    ensures Chosen(resolved, []) == [] && Keep([], {}, {}) == []
  {
    if resolved != [] { NothingChosen(resolved[1..]); }
  }

  lemma {:induction false} FlatRuleOf(models: seq<string>, rules: seq<Rule>, effective: map<string, seq<string>>,
                                      id: string)
    requires id in models && TypesOf(effective, id) != []
    ensures Rule([id], Chosen(Resolved(rules, id), TypesOf(effective, id))) in FlatRules(models, rules, effective)
  {
    hide Chosen, Resolved;
    if models[0] != id { FlatRuleOf(models[1..], rules, effective, id); }
  }

  /** The configuration check refuses a rule whose keys clash, so all chosen tools reach the model. */
  lemma ChosenIsNormal(c: Config, model: string, kinds: seq<string>)
    requires ValidConfig(c) && model in c.models && ValidConfig(Edited(c, model, kinds))
    ensures Normal(Chosen(Resolved(c.rules, model), Cleaned(kinds, {})), {})
  {
    hide Trim, Chosen, Key, Kind, Cleaned, Resolved, ValidPattern;
    var types := Cleaned(kinds, {});
    var effective := Effective(c)[model := types];
    var tools := Chosen(Resolved(c.rules, model), types);
    if types == [] {
      NothingChosen(Resolved(c.rules, model));
    } else {
      FlatRuleOf(c.models, c.rules, effective, model);
      assert ValidRule(Rule([model], tools));
      forall t | t in tools ensures Key(t) != "" { KindHasKey(t); }
    }
  }

  lemma KindHasKey(t: Tool)
    ensures Kind(t) != "" ==> Key(t) != ""
  {}

  /** The tools of the kinds asked for, in order. */
  function OfKinds(ts: seq<Tool>, kinds: seq<string>): seq<Tool> {
    if ts == [] then [] else (if Asked(kinds, Kind(ts[0])) then [ts[0]] else []) + OfKinds(ts[1..], kinds)
  }

  lemma {:induction false} SelectedInOrder(ts: seq<Tool>, kinds: seq<string>)
    requires forall t :: t in ts ==> Kind(t) != ""
    ensures Selected(ts, Cleaned(kinds, {})) == OfKinds(ts, kinds)
  {
    hide Kind, Cleaned, Asked;
    if ts != [] {
      CleanedKinds(kinds, {});
      SelectedInOrder(ts[1..], kinds);
    }
  }

  /** What comes behind the tools it had are bare declarations of kinds it had not. */
  lemma ChosenInOrder(was: seq<Tool>, kinds: seq<string>)
    requires forall t :: t in was ==> Kind(t) != ""
    ensures var now, kept := Chosen(was, Cleaned(kinds, {})), OfKinds(was, kinds);
            && |kept| <= |now| && now[..|kept|] == kept
            && forall t :: t in now[|kept|..] ==> t == Bare(Kind(t)) && !HasKind(was, Kind(t))
  {
    var types := Cleaned(kinds, {});
    CleanedKinds(kinds, {});
    forall raw | raw in kinds ensures Trim(Trim(raw)) == Trim(raw) { TrimTwice(raw); }
    SelectedInOrder(was, kinds);
    SelectedKinds(was, types);
    hide Trim, Kind, Cleaned, Key, Name;
    MissingKinds(types, Selected(was, types));
    forall k | k in types ensures Kind(Bare(k)) == k { BareKey(k); }
  }

  /** After a save that takes effect the edited model has tools of exactly the selected kinds: all
      it had of those, in order, and then a bare declaration for each new kind. */
  lemma EditGivesSelection(c: Config, model: string, kinds: seq<string>, io: Commit)
    requires ValidConfig(c) && ExactModels(c.models) && Commits(c, model, kinds, io)
    ensures var was, now := Resolved(c.rules, model), Resolved(InForce(c, model, kinds, io).rules, model);
            && now == Chosen(was, Cleaned(kinds, {}))
            && (forall k :: k != "" && Asked(kinds, k) ==> HasKind(now, k))
            && (forall t :: t in now ==> Kind(t) != "" && Asked(kinds, Kind(t)))
            && (forall t :: t in was && Asked(kinds, Kind(t)) ==> t in now)
            && (forall t :: t in now ==> t in was || t == Bare(Kind(t)))
            && |OfKinds(was, kinds)| <= |now| && now[..|OfKinds(was, kinds)|] == OfKinds(was, kinds)
            && (forall t :: t in now[|OfKinds(was, kinds)|..] ==> t == Bare(Kind(t)) && !HasKind(was, Kind(t)))
  {
    hide Trim, ExactModels, FlatRules, Cleaned, ValidConfig, Keep, Chosen, Kind, Normal;
    var resolved, types := Resolved(c.rules, model), Cleaned(kinds, {});
    EditTouchesOneModel(c, model, kinds, io);
    ResolvedOfValid(c, model);
    CleanedKinds(kinds, {});
    forall raw | raw in kinds ensures Trim(Trim(raw)) == Trim(raw) { TrimTwice(raw); }
    ChosenKinds(resolved, types);
    ChosenInOrder(resolved, kinds);
    ChosenIsNormal(c, model, kinds);
    KeepOfNormal(Chosen(resolved, types), {});
  }

  // ---------------------------------------------------------------- requests

  /** Wherever a gateway tool comes first with its key, later tools with that key reserve the same function. */
  predicate FirstTells(ts: seq<Tool>) {
    forall i, j :: 0 <= i < j < |ts| && Key(ts[i]) == Key(ts[j]) && Builtin(ts[i]) != "" && FirstAt(ts, i) ==>
      Builtin(ts[j]) == Builtin(ts[i])
  }

  predicate FirstAt(ts: seq<Tool>, i: nat)
    requires i < |ts|
  {
    forall h :: 0 <= h < i ==> Key(ts[h]) != Key(ts[i])
  }

  lemma SeparatedTells(ts: seq<Tool>)
    requires Separated(ts)
    ensures FirstTells(ts)
  {
    hide Kind, Key;
    forall i, j | 0 <= i < j < |ts| && Key(ts[i]) == Key(ts[j]) ensures Builtin(ts[j]) == Builtin(ts[i]) {
      KeyTellsKind(ts[i], ts[j]);
    }
  }

  /** A key counts as settled once it was seen, or once no later tool with that key can be let through. */
  ghost predicate Settled(k: string, ts: seq<Tool>, seen: set<string>, barred: set<string>) {
    k in seen || forall t :: t in ts && Key(t) == k ==> Barred(t, barred)
  }

  /** Tools that keys do not confuse: no key of `known` is met, and firsts tell. */
  ghost predicate Tells(ts: seq<Tool>, known: set<string>) {
    forall i, j ::
      (0 <= i < j < |ts| && Key(ts[i]) == Key(ts[j]) && Key(ts[i]) !in known
       && Builtin(ts[i]) != "" && FirstAt(ts, i)) ==>
        Builtin(ts[j]) == Builtin(ts[i])
  }

  lemma TellsLater(ts: seq<Tool>, known: set<string>, more: set<string>)
    requires ts != [] && Tells(ts, known) && known <= more && (Key(ts[0]) in more || Key(ts[0]) == "")
    ensures Tells(ts[1..], more)
  {
    hide Key, Builtin;
    var rest := ts[1..];
    forall i, j | 0 <= i < j < |rest| && Key(rest[i]) == Key(rest[j]) && Key(rest[i]) !in more
      && Builtin(rest[i]) != "" && FirstAt(rest, i)
      ensures Builtin(rest[j]) == Builtin(rest[i])
    {
      BuiltinHasKey(rest[i]);
      assert FirstAt(ts, i + 1) by {
        forall h | 0 <= h < i + 1 ensures Key(ts[h]) != Key(ts[i + 1]) {
          if h > 0 { assert ts[h] == rest[h - 1]; }
        }
      }
    }
  }

  lemma BuiltinHasKey(t: Tool)
    requires Builtin(t) != ""
    ensures Kind(t) != "" && Kind(t)[0] == 'v' && Key(t) != "" && Reserved(Builtin(t))
  {
    hide Kind, Name, Reserved;
    assert Kind(t)[0] == Kind(t)[..7][0];
  }

  lemma ReservedIsTidy(name: string)
    requires Reserved(name)
    ensures name != "" && Tidy(name)
  {}

  /** Thinning to first definitions and then adding to a request is the same as adding directly. */
  lemma {:induction false} KeepOfKeep(ts: seq<Tool>, known: set<string>, seen: set<string>, barred: set<string>)
    requires Tells(ts, known) && forall k :: k in known ==> Settled(k, ts, seen, barred)
    ensures Keep(Keep(ts, known, {}), seen, barred) == Keep(ts, seen, barred)
  {
    hide Key, Builtin, Tells;
    if ts != [] {
      var t, rest, k := ts[0], ts[1..], Key(ts[0]);
      if k == "" || k in known {
        TellsLater(ts, known, known);
        KeepOfKeep(rest, known, seen, barred);
      } else {
        TellsLater(ts, known, known + {k});
        if Barred(t, barred) && k !in seen { BarredSettles(ts, known, seen, barred); }
        var next := if k in seen || Barred(t, barred) then seen else seen + {k};
        KeepOfKeep(rest, known + {k}, next, barred);
        assert Keep(ts, known, {}) == [t] + Keep(rest, known + {k}, {});
      }
    }
  }

  lemma BarredSettles(ts: seq<Tool>, known: set<string>, seen: set<string>, barred: set<string>)
    requires ts != [] && Tells(ts, known) && Barred(ts[0], barred) && Key(ts[0]) !in known
    ensures Settled(Key(ts[0]), ts, seen, barred)
  {
    hide Key, Builtin;
    assert FirstAt(ts, 0);
  }

  /** Every request is served alike from the thinned tools exactly when firsts tell. */
  lemma {:induction false} ResolvedDecides(ts: seq<Tool>)
    ensures (forall entries :: Added(entries, Keep(ts, {}, {})) == Added(entries, ts)) <==> FirstTells(ts)
  {
    hide Key, Builtin, Declared, ClientFunctions, Keep, FirstAt;
    if FirstTells(ts) {
      forall entries ensures Added(entries, Keep(ts, {}, {})) == Added(entries, ts) {
        KeepOfKeep(ts, {}, Declared(entries), ClientFunctions(entries));
      }
    } else {
      var i, j :| 0 <= i < j < |ts| && Key(ts[i]) == Key(ts[j]) && Builtin(ts[i]) != "" && FirstAt(ts, i)
        && Builtin(ts[j]) != Builtin(ts[i]);
      var entries := Shadowing(ts, i, j);
      assert Added(entries, Keep(ts, {}, {})) != Added(entries, ts);
    }
  }

  lemma {:induction false} KeepsKey(ts: seq<Tool>, seen: set<string>, barred: set<string>, j: nat)
    requires j < |ts| && Key(ts[j]) != "" && Key(ts[j]) !in seen && !Barred(ts[j], barred)
    ensures exists t :: t in Keep(ts, seen, barred) && Key(t) == Key(ts[j])
  {
    hide Key, Barred;
    if j > 0 && Key(ts[0]) != Key(ts[j]) {
      assert ts[1..][j - 1] == ts[j];
      KeepsKey(ts[1..], seen, barred, j - 1);
      KeepsKey(ts[1..], seen + {Key(ts[0])}, barred, j - 1);
    } else if j > 0 && (Barred(ts[0], barred)) {
      assert ts[1..][j - 1] == ts[j];
      KeepsKey(ts[1..], seen, barred, j - 1);
    }
  }

  /** Thinning keeps the first tool of each key. */
  lemma {:induction false} KeepsFirst(ts: seq<Tool>, seen: set<string>, i: nat)
    requires i < |ts| && Key(ts[i]) != "" && Key(ts[i]) !in seen && FirstAt(ts, i)
    ensures forall t :: t in Keep(ts, seen, {}) && Key(t) == Key(ts[i]) ==> t == ts[i]
  {
    hide Key;
    if i > 0 {
      assert ts[1..][i - 1] == ts[i];
      assert FirstAt(ts[1..], i - 1);
      KeepsFirst(ts[1..], seen, i - 1);
      KeepsFirst(ts[1..], seen + {Key(ts[0])}, i - 1);
    } else {
      KeepIsNormal(ts[1..], seen + {Key(ts[0])}, {});
    }
  }

  lemma {:induction false} KeepsUnbarred(ts: seq<Tool>, seen: set<string>, barred: set<string>)
    ensures forall t :: t in Keep(ts, seen, barred) ==> !Barred(t, barred)
  {
    hide Key, Barred;
    if ts != [] {
      KeepsUnbarred(ts[1..], seen, barred);
      KeepsUnbarred(ts[1..], seen + {Key(ts[0])}, barred);
    }
  }

  /** A client function that hides the first tool of a key but not a later one. */
  lemma Shadowing(ts: seq<Tool>, i: nat, j: nat) returns (entries: seq<Entry>)
    requires i < j < |ts| && Key(ts[i]) == Key(ts[j]) && Builtin(ts[i]) != "" && FirstAt(ts, i)
             && Builtin(ts[j]) != Builtin(ts[i])
    ensures Added(entries, Keep(ts, {}, {})) != Added(entries, ts)
  {
    var b := Builtin(ts[i]);
    entries := [Object(Tool("function", "", b, ""))];
    BuiltinHasKey(ts[i]);
    ClientFunction(b, ts[i]);
    hide Key, Builtin, Declared, ClientFunctions;
    KeepsKey(ts, Declared(entries), ClientFunctions(entries), j);
    KeepsFirst(ts, {}, i);
    var thin := Keep(ts, {}, {});
    KeepIsNormal(thin, Declared(entries), ClientFunctions(entries));
    KeepsUnbarred(thin, Declared(entries), ClientFunctions(entries));
  }

  lemma ClientFunction(b: string, t: Tool)
    requires b == Builtin(t) != ""
    ensures var entries := [Object(Tool("function", "", b, ""))];
            ClientFunctions(entries) == {b} && Key(t) !in Declared(entries)
  {
    var f := Tool("function", "", b, "");
    BuiltinHasKey(t);
    ReservedIsTidy(b);
    hide Trim, Builtin, Reserved;
    TrimIsTidy("function");
    TrimIsTidy("");
    TrimIsTidy(b);
    assert Kind(f) == "function" && Key(f)[0] == 'f' && Key(t)[0] == 'v';
    hide Kind, Key;
    assert ClientName(f) == b;
    assert Object(f) in [Object(f)];
  }

  /** Rewriting the rules leaves every request to a configured model as it was, exactly when
      firsts tell among the tools the model is offered. */
  lemma FlattenPreservesRequests(c: Config, id: string, x: string)
    requires ValidConfig(c) && ExactModels(c.models) && id in c.models && Trim(x) == Trim(id)
    ensures var flat := FlatRules(c.models, c.rules, Effective(c));
            (forall entries :: Added(entries, Offered(flat, x)) == Added(entries, Offered(c.rules, x)))
            <==> FirstTells(Offered(c.rules, x))
  {
    hide Trim, Chosen, Keep, Kinds, FlatRules, ExactModels, Normal, Added, FirstTells;
    ResolvedOfValid(c, id);
    ChosenUnedited(Resolved(c.rules, id));
    OfferedTrimmed(c.rules, id, x);
    OfferedFlat(c.models, c.rules, Effective(c), x);
    ResolvedDecides(Offered(c.rules, x));
  }

  // ---------------------------------------------------------------- tools that do not tell

  function Masked(): Tool { Tool("vercel:exa_search", "n\0m", "", "") }

  function Unmasked(): Tool { Tool("vercel:exa_search\0n", "m", "", "") }

  /** Two valid rules whose rewriting changes a request: a client function hides the first tool but
      not the second, which has the same key and another kind. */
  lemma {:induction false} NulConfusesKeys() returns (c: Config, entries: seq<Entry>)
    ensures ValidConfig(c) && ExactModels(c.models) && "m" in c.models && !FirstTells(Offered(c.rules, "m"))
    ensures var flat := FlatRules(c.models, c.rules, Effective(c));
            Added(entries, Offered(flat, "m")) != Added(entries, Offered(c.rules, "m"))
  {
    var t, u := Masked(), Unmasked();
    c := Confusing();
    MaskedKeys();
    ConfusingIsValid();
    hide Trim, Accepts, Key, Kind, Builtin, ValidConfig, ExactModels, RuleMatches, Masked, Unmasked;
    OfferedTwo(c.rules[0], c.rules[1], "m");
    assert [t] + [u] == [t, u];
    TwoTools(t, u);
    FlattenPreservesRequests(c, "m", "m");
    hide Added, FlatRules, Offered, Effective, FirstTells;
    var flat := FlatRules(c.models, c.rules, Effective(c));
    entries :| Added(entries, Offered(flat, "m")) != Added(entries, Offered(c.rules, "m"));
  }

  function Confusing(): Config { Config(["m"], [Rule(["m"], [Masked()]), Rule(["m"], [Unmasked()])]) }

  lemma ConfusingIsValid()
    ensures var c := Confusing();
            ValidConfig(c) && ExactModels(c.models) && RuleMatches(c.rules[0], "m") && RuleMatches(c.rules[1], "m")
  {
    MaskedKeys();
    hide Key, Kind, Builtin, Masked, Unmasked;
    TrimIsTidy("m");
    ExactPattern("m", "m");
    hide Trim, Accepts;
    assert ValidPattern("m");
    assert "m" in ["m"];
  }

  lemma TwoTools(t: Tool, u: Tool)
    requires Key(t) == Key(u) && Builtin(t) != "" && Builtin(u) != Builtin(t)
    ensures !FirstTells([t, u])
  {
    hide Key, Builtin;
    var ts := [t, u];
    assert ts[0] == t && ts[1] == u && FirstAt(ts, 0);
  }

  lemma OfferedTwo(one: Rule, two: Rule, x: string)
    requires RuleMatches(one, x) && RuleMatches(two, x)
    ensures Offered([one, two], x) == one.tools + two.tools
  {
    hide RuleMatches;
    assert [one, two][1..] == [two] && [two][1..] == [];
    assert Offered([two], x) == two.tools + [];
  }

  lemma MaskedKeys()
    ensures var t, u := Masked(), Unmasked();
            && Key(t) == Key(u) && Kind(t) != "" && Kind(u) != "" && Builtin(t) != "" && Builtin(u) != Builtin(t)
  {
    var t, u := Masked(), Unmasked();
    TrimIsTidy(t.kind);
    TrimIsTidy(t.name);
    TrimIsTidy(u.kind);
    TrimIsTidy(u.name);
    TrimIsTidy("");
    hide Trim;
    assert Kind(t) == t.kind && Kind(u) == u.kind && Name(t) == t.name && Name(u) == u.name;
    assert t.kind + [NUL] + t.name == u.kind + [NUL] + u.name;
    assert t.kind[..7] == "vercel:" && t.kind[7..] == "exa_search";
    assert u.kind[7..] == "exa_search\0n" && |u.kind[7..]| == 12;
    assert !Reserved(u.kind[7..]);
  }
}
