/** Runs from a start: three show where a promise about quota state ends, and one how far another goes. */
module QuotaExamples {
  import opened Common
  import opened QuotaBlocks
  import opened QuotaState
  import opened QuotaRuns
  import opened QuotaHistories

  lemma {:induction false} RunOneMore(h: History, ops: seq<Op>, op: Op)
    requires Possible(h, ops) && Enabled(After(h, ops), op)
    ensures Possible(h, ops + [op]) && After(h, ops + [op]) == Step(After(h, ops), op)
    decreases |ops|
  {
    hide Enabled, Step;
    if ops == [] {
      assert [] + [op] == [op] && [op][1..] == [];
    } else {
      assert (ops + [op])[1..] == ops[1..] + [op];
      RunOneMore(Step(h, ops[0]), ops[1..], op);
    }
  }

  function Stored(disabled: bool): Cred { Cred("k", disabled, None, None, NoRev) }

  /** A watcher read that could not be resolved to the file, of content from before the operator
      switched the credential off, switches it on again. */
  lemma StaleReadFlipsSwitch() returns (before: seq<Op>, read: Op)
    ensures Possible(Start(map["i" := Stored(false)], 0), before)
    ensures var h := After(Start(map["i" := Stored(false)], 0), before);
            && Inv(h) && Chosen(h, "i", true) && read == Parse("i", Stored(false), false) && Enabled(h, read)
            && ("i", read.content) in h.past && !Orderly(h, read, "i", true)
            && !Chosen(Step(h, read), "i", true)
  {
    before := SwitchedOff();
    read := Parse("i", Stored(false), false);
    var start := Start(map["i" := Stored(false)], 0);
    StartHasInv(map["i" := Stored(false)], 0);
    RunKeepsInv(start, before);
    hide After, Possible, Normalize;
    ReadKeepsSwitchIff(After(start, before), "i", Stored(false), false, "i", true);
  }

  /** The credential is read, and then switched off by the operator. */
  lemma SwitchedOff() returns (ops: seq<Op>)
    ensures Possible(Start(map["i" := Stored(false)], 0), ops)
    ensures var h := After(Start(map["i" := Stored(false)], 0), ops);
            && h.s.creds == map["i" := Stored(true)] && h.s.files == map["i" := Stored(true)]
            && h.s.revoked == {} && ("i", Stored(false)) in h.past
  {
    var start := Start(map["i" := Stored(false)], 0);
    var first := Parse("i", Stored(false), true);
    var switch := Operator("i", Stored(false), "k", true, ViaFile(Io(true, true)));
    RunOneMore(start, [], first);
    assert [] + [first] == [first];
    assert After(start, [first]).s.creds == map["i" := Stored(false)];
    ops := [first] + [switch];
    RunOneMore(start, [first], switch);
  }

  const LIMITED := Block("", "k", Some(false), "error", "quota_exhausted", None, 1, 1, [Limit("quota", None)])

  function Paused(): Cred { Cred("k", false, Some(LIMITED), None, Issued(0)) }

  const SAMPLE := Usage(true, false, Some(2), [], "a")

  /** The write a sample plans for a credential that is not blocked and gets an identity. */
  function Named(): Member { Member("i", Cred("k", false, None, Some(Identity("a", "k")), NoRev)) }

  lemma SamplePlansWrite(s: State)
    requires s == State(map["i" := Stored(false)], s.files, {}, {}, map[], s.issued)
    ensures Publish(s, UsageGroup(s, "i", SAMPLE, 2)) == (s, [Named()])
    ensures Learned(s, "i", SAMPLE.account) == s && UsageAccount(s, "i", SAMPLE) == "a"
  {
    var ids := GroupIds(s, "i", "a");
    assert ids == {"i"};
    OneSorted("i");
    var group := Group(s, "i", "a");
    assert group == [Member("i", Grouped(Stored(false), "a"))];
    var blocks := AllBlocks(group, SAMPLE, 2);
    assert blocks == [None];
    assert blocks[..0] == [] && Joined(blocks).None?;
    var g := UsageGroup(s, "i", SAMPLE, 2);
    assert g == [Named()];
    PublishNothing(s);
  }

  lemma PublishNothing(s: State)
    requires "i" in s.creds && s.creds["i"] == Stored(false)
    ensures Publish(s, [Named()]) == (s, [Named()])
  {
    var g := [Named()];
    assert g[..0] == [] && Publish(s, []) == (s, []);
    assert Current(s, Named()) && Differs(s.creds["i"], Named().next);
    assert PublishOne(s, Named()) == s && Writes(s, Named());
    assert [] + [Named()] == [Named()];
  }

  lemma OneSorted(k: string)
    ensures Sorted({k}) == [k]
  {
    assert IsLeast(Least({k}), {k});
    assert {k} - {k} == {};
    assert Sorted({}) == [];
  }

  /** Watched from a start: a credential without a block is sampled; before the sample's write,
      content with an earlier block of the plugin's is put back into its file and read; then the
      write ends that block, without any evidence. */
  lemma {:induction false} LostBlock() returns (before: seq<Op>, write: Op)
    ensures Possible(Start(map["i" := Paused()], 1), before)
    ensures var h := After(Start(map["i" := Paused()], 1), before);
            && Inv(h) && Blocked(h.s, "i") && h.s.creds["i"].rev.Issued? && !Guarded(h, "i")
            && write == WriteNext(Io(true, true)) && Enabled(h, write)
            && !Blocked(Step(h, write).s, "i") && Selectable(Step(h, write).s, "i") && !Clears(h, write, "i")
  {
    var start := Start(map["i" := Paused()], 1);
    before := PutBack();
    write := WriteNext(Io(true, true));
    StartHasInv(map["i" := Paused()], 1);
    RunKeepsInv(start, before);
    hide After, Possible, Start, Inv;
    var h := After(start, before);
    WriteEndsBlockIff(h, Io(true, true), "i");
    NotEarned(h);
    assert Step(h, write).s.creds["i"].key == "k";
  }

  /** Up to where the earlier block is read. */
  lemma PutBack() returns (ops: seq<Op>)
    ensures Possible(Start(map["i" := Paused()], 1), ops)
    ensures var h := After(Start(map["i" := Paused()], 1), ops);
            && h.s == State(map["i" := Paused()], map["i" := Paused()], {}, {}, map[], 1)
            && h.pending == [Named()] && ("i" in h.evidence ==> h.evidence["i"].merged.None?)
  {
    var start := Start(map["i" := Paused()], 1);
    var first := Sampled();
    hide After, Possible, Start, Step;
    assert Agrees(Paused(), Paused());
    ops := ExternalMore(start, first, "i", Paused());
    assert After(start, ops).s == State(map["i" := Stored(false)], map["i" := Paused()], {}, {}, map[], 1);
    ops := ParseMore(start, ops, "i");
    hide Agrees;
  }

  lemma ExternalMore(start: History, ops: seq<Op>, id: string, content: Cred) returns (more: seq<Op>)
    requires Possible(start, ops) && Honest(After(start, ops), id, content)
    ensures Possible(start, more)
    ensures var h, after := After(start, ops), After(start, more);
            && after.s == h.s.(files := h.s.files[id := content])
            && after.pending == h.pending && after.evidence == h.evidence
  {
    more := ops + [External(id, content)];
    RunOneMore(start, ops, External(id, content));
    hide After, Possible, Honest;
  }

  lemma ParseMore(start: History, ops: seq<Op>, id: string) returns (more: seq<Op>)
    requires Possible(start, ops) && id in After(start, ops).s.files
    ensures Possible(start, more)
    ensures var h, after := After(start, ops), After(start, more);
            && after.s == Parsed(h.s, id, h.s.files[id], true)
            && after.pending == h.pending && after.evidence == h.evidence
  {
    var read := Parse(id, After(start, ops).s.files[id], true);
    more := ops + [read];
    RunOneMore(start, ops, read);
    hide After, Possible, Parsed;
  }

  lemma NotEarned(h: History)
    requires h.pending == [Named()] && ("i" in h.evidence ==> h.evidence["i"].merged.None?)
    ensures !Earned(Named(), h.evidence) && Named() in h.pending
  {}

  /** Up to the sample: the paused file is replaced, read, and the credential sampled. */
  lemma Sampled() returns (ops: seq<Op>)
    ensures Possible(Start(map["i" := Paused()], 1), ops)
    ensures var h := After(Start(map["i" := Paused()], 1), ops);
            && h.s == State(map["i" := Stored(false)], map["i" := Stored(false)], {}, {}, map[], 1)
            && h.pending == [Named()] && ("i", Paused()) in h.past
            && ("i" in h.evidence ==> h.evidence["i"].merged.None?)
  {
    var start := Start(map["i" := Paused()], 1);
    var replaced, read := External("i", Stored(false)), Parse("i", Stored(false), true);
    var sample := UsageSeen("i", SAMPLE, 2);
    RunOneMore(start, [], replaced);
    assert [] + [replaced] == [replaced];
    RunOneMore(start, [replaced], read);
    var h := After(start, [replaced] + [read]);
    assert h.s == State(map["i" := Stored(false)], map["i" := Stored(false)], {}, {}, map[], 1);
    hide Normalize, Parsed;
    SamplePlansWrite(h.s);
    NoEvidence(h.s);
    ops := [replaced] + [read] + [sample];
    RunOneMore(start, [replaced] + [read], sample);
    hide UsageGroup, Publish, Learned, EvidenceFor;
  }

  lemma NoEvidence(s: State)
    requires s == State(map["i" := Stored(false)], s.files, {}, {}, map[], s.issued)
    ensures var evidence := EvidenceFor(s, "i", SAMPLE, 2); "i" in evidence ==> evidence["i"].merged.None?
  {
    SamplePlansWrite(s);
    OneSorted("i");
    assert GroupIds(s, "i", "a") == {"i"};
    var blocks := AllBlocks(Group(s, "i", "a"), SAMPLE, 2);
    assert blocks == [None];
    assert blocks[..0] == [] && Joined(blocks).None?;
  }

  /** A block that came with no revision goes when its file is replaced by content without one. */
  lemma UnmarkedBlockIsReadAway() returns (before: seq<Op>, read: Op)
    ensures var start := Start(map["i" := Paused().(rev := NoRev)], 0);
            && Possible(start, before)
            && var h := After(start, before);
               && Inv(h) && Guarded(h, "i") && Enabled(h, read) && ReadEnds(h, read, "i")
               && !Blocked(Step(h, read).s, "i")
  {
    var unmarked := Paused().(rev := NoRev);
    var start := Start(map["i" := unmarked], 0);
    StartHasInv(map["i" := unmarked], 0);
    var first, replaced := Parse("i", unmarked, true), External("i", Stored(false));
    before, read := [first] + [replaced], Parse("i", Stored(false), true);
    RunOneMore(start, [], first);
    assert [] + [first] == [first];
    RunOneMore(start, [first], replaced);
    RunKeepsInv(start, before);
    var h := After(start, before);
    assert h.s.creds["i"] == unmarked && h.s.files["i"] == Stored(false) && h.pending == [];
    hide After, Possible;
    ReadEndsBlockIff(h, Stored(false), true, "i");
  }

  function Sibling(): Cred { Cred("l", false, None, None, NoRev) }

  function Both(): map<string, Cred> { map["i" := Stored(false), "j" := Sibling()] }

  lemma ReadBoth() returns (ops: seq<Op>)
    ensures Possible(Start(Both(), 0), ops)
    ensures var h := After(Start(Both(), 0), ops); h.s == State(Both(), Both(), {}, {}, map[], 0) && h.pending == []
  {
    var start := Start(Both(), 0);
    var first, second := Parse("i", Stored(false), true), Parse("j", Sibling(), true);
    RunOneMore(start, [], first);
    assert [] + [first] == [first];
    assert After(start, [first]).s == State(map["i" := Stored(false)], Both(), {}, {}, map[], 0);
    ops := [first] + [second];
    RunOneMore(start, [first], second);
  }

  lemma QueryMore(start: History, ops: seq<Op>, op: Op) returns (more: seq<Op>)
    requires Possible(start, ops) && (op.Query? || op.Answer?) && Enabled(After(start, ops), op)
    ensures Possible(start, more)
    ensures var h, after := After(start, ops), After(start, more);
            && after.s == (if op.Query? then Queried(h.s, op.id) else Answered(h.s, op.id, op.serial, op.account))
            && after.pending == h.pending
  {
    more := ops + [op];
    RunOneMore(start, ops, op);
    hide After, Possible;
  }

  /** Two credentials are read, and a usage query of each answered with the same account. */
  lemma QueriedBoth() returns (ops: seq<Op>)
    ensures Possible(Start(Both(), 0), ops)
    ensures var h := After(Start(Both(), 0), ops);
            && h.s == State(Both(), Both(), {}, {}, map["i" := Entry("a", "k", 0), "j" := Entry("a", "l", 1)], 2)
            && h.pending == []
  {
    hide After, Possible, Start;
    var start := Start(Both(), 0);
    ops := ReadBoth();
    ops := QueryMore(start, ops, Query("i"));
    ops := QueryMore(start, ops, Query("j"));
    ops := QueryMore(start, ops, Answer("i", 0, "a"));
    ops := QueryMore(start, ops, Answer("j", 1, "a"));
  }

  /** No credential has an identity yet; that usage queries named one account is enough for an error
      of the one to block the other. */
  lemma UsageJoinsAccount() returns (before: seq<Op>, error: Op)
    ensures Possible(Start(Both(), 0), before)
    ensures var h := After(Start(Both(), 0), before);
            && h.s.creds == Both() && Selectable(h.s, "j")
            && error == ErrorSeen("i", "", None, 1) && Exhausts(h, error, "j") && !Selectable(Step(h, error).s, "j")
  {
    before := QueriedBoth();
    error := ErrorSeen("i", "", None, 1);
    var start := Start(Both(), 0);
    StartHasInv(Both(), 0);
    RunKeepsInv(start, before);
    var h := After(start, before);
    hide After, Possible, Inv, Start;
    assert AccountOf(h.s, "i", h.s.creds["i"]) == "a" == AccountOf(h.s, "j", h.s.creds["j"]);
    ErrorBlocksAccount(h, "i", "", None, 1, "j");
  }
}
