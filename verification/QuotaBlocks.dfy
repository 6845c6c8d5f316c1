/**
 Quota blocks as values: how blocks of one account merge, and which usage sample ends one.
 Hashing a key is injective, so keys stand for their hashes.
 */
module QuotaBlocks {
  import opened Common

  datatype Limit = Limit(kind: string, reset: Option<Time>)

  datatype Block = Block(
    account: string, key: string, manual: Option<bool>, source: string, reason: string,
    retryAt: Option<Time>, blockedAt: Time, observedAt: Time, limits: seq<Limit>)

  datatype Identity = Identity(account: string, key: string)

  /** A revision of the quota state: absent, made by this plugin, or any other text. */
  datatype Rev = NoRev | Issued(n: nat) | Foreign(text: string)

  /** The fields of a credential, in memory or in its file, that quota handling reads and writes. */
  datatype Cred = Cred(key: string, disabled: bool, block: Option<Block>, identity: Option<Identity>, rev: Rev)

  function Normalize(c: Cred): Cred {
    c.(identity := if c.identity.Some?
                      && (c.key == "" || c.identity.value.key != c.key || c.identity.value.account == "")
                   then None else c.identity,
       block := if c.block.Some? && (c.key == "" || c.block.value.key != c.key || c.block.value.limits == []) then None
                else if c.block.Some? then Some(c.block.value.(manual := Some(c.disabled)))
                else None)
  }

  /** Reading a stored credential: a block remembers the operator's own choice. */
  function Read(stored: Cred): Cred {
    if stored.block.Some? && stored.block.value.manual.Some?
    then stored.(disabled := stored.block.value.manual.value)
    else stored
  }

  // ---------------------------------------------------------------- sorted names

  predicate Less(a: string, b: string) {
    b != "" && (a == "" || a[0] < b[0] || (a[0] == b[0] && Less(a[1..], b[1..])))
  }

  lemma {:induction false} LessIsTotal(a: string, b: string)
    ensures Less(a, b) || a == b || Less(b, a)
    ensures !(Less(a, b) && Less(b, a)) && !(a == b && Less(a, b))
  {
    if a != "" && b != "" && a[0] == b[0] {
      LessIsTotal(a[1..], b[1..]);
      assert a == [a[0]] + a[1..] && b == [b[0]] + b[1..];
    }
  }

  lemma {:induction false} LessIsTransitive(a: string, b: string, c: string)
    requires Less(a, b) && Less(b, c)
    ensures Less(a, c)
  {
    if a != "" && a[0] == b[0] == c[0] { LessIsTransitive(a[1..], b[1..], c[1..]); }
  }

  predicate IsLeast(k: string, ks: set<string>) { k in ks && forall j :: j in ks && j != k ==> Less(k, j) }

  lemma {:induction false} LeastExists(ks: set<string>)
    requires ks != {}
    ensures exists k :: IsLeast(k, ks)
    decreases |ks|
  {
    hide Less;
    var k :| k in ks;
    var rest := ks - {k};
    if rest == {} {
      forall j | j in ks ensures j == k { assert j !in rest; }
      assert IsLeast(k, ks);
    } else {
      LeastExists(rest);
      var l :| IsLeast(l, rest);
      LessIsTotal(k, l);
      if Less(k, l) {
        forall j | j in ks && j != k ensures Less(k, j) { if j != l { LessIsTransitive(k, l, j); } }
        assert IsLeast(k, ks);
      } else {
        assert IsLeast(l, ks);
      }
    }
  }

  function Least(ks: set<string>): (k: string)
    requires ks != {}
    ensures IsLeast(k, ks)
  {
    LeastExists(ks);
    LeastIsUnique(ks);
    var k :| IsLeast(k, ks);
    k
  }

  lemma LeastIsUnique(ks: set<string>)
    ensures forall j, k :: IsLeast(j, ks) && IsLeast(k, ks) ==> j == k
  {
    forall j, k | IsLeast(j, ks) && IsLeast(k, ks) ensures j == k { LessIsTotal(j, k); }
  }

  predicate Ascending(ks: seq<string>) { forall i, j :: 0 <= i < j < |ks| ==> Less(ks[i], ks[j]) }

  function Sorted(ks: set<string>): (r: seq<string>)
    ensures Ascending(r) && (forall k :: k in r <==> k in ks)
    decreases |ks|
  {
    if ks == {} then []
    else
      var k, rest := Least(ks), Sorted(ks - {Least(ks)});
      assert forall i :: 0 <= i < |rest| ==> rest[i] in ks - {k};
      [k] + rest
  }

  // ---------------------------------------------------------------- merging

  /** The later of two resets; an unknown one yields. */
  function Later(a: Option<Time>, b: Option<Time>): Option<Time> {
    if a.None? || (b.Some? && b.value > a.value) then b else a
  }

  function AddLimit(limits: map<string, Option<Time>>, l: Limit): map<string, Option<Time>> {
    if l.kind in limits then limits[l.kind := Later(limits[l.kind], l.reset)] else limits[l.kind := l.reset]
  }

  function AddLimits(limits: map<string, Option<Time>>, ls: seq<Limit>): map<string, Option<Time>> {
    if ls == [] then limits else AddLimit(AddLimits(limits, ls[..|ls| - 1]), ls[|ls| - 1])
  }

  /** What has been gathered from the blocks so far, starting from a copy of the first. */
  datatype Join = Join(first: Block, blockedAt: Time, observedAt: Time, source: string,
                       limits: map<string, Option<Time>>)

  function Joined(blocks: seq<Option<Block>>): Option<Join> {
    if blocks == [] then None
    else
      var before, last := Joined(blocks[..|blocks| - 1]), blocks[|blocks| - 1];
      if last.None? then before
      else
        var b := last.value;
        var j := if before.None? then Join(b, b.blockedAt, b.observedAt, b.source, map[]) else before.value;
        var later := b.observedAt > j.observedAt;
        Some(Join(j.first, Min(j.blockedAt, b.blockedAt), if later then b.observedAt else j.observedAt,
                  if later then b.source else j.source, AddLimits(j.limits, b.limits)))
  }

  function Listed(limits: map<string, Option<Time>>): (r: seq<Limit>)
    ensures |r| == |Sorted(limits.Keys)|
    ensures forall i :: 0 <= i < |r| ==>
              r[i].kind == Sorted(limits.Keys)[i] && r[i].kind in limits && r[i].reset == limits[r[i].kind]
  {
    var ks := Sorted(limits.Keys);
    seq(|ks|, i requires 0 <= i < |ks| => Limit(ks[i], if ks[i] in limits then limits[ks[i]] else None))
  }

  function RetryOf(ls: seq<Limit>): Option<Time> {
    if ls == [] then None else Later(RetryOf(ls[..|ls| - 1]), ls[|ls| - 1].reset)
  }

  function Merge(c: Cred, blocks: seq<Option<Block>>): Option<Block> {
    var j := Joined(blocks);
    if j.None? then None
    else
      var ls := Listed(j.value.limits);
      Some(Block(if c.identity.Some? then c.identity.value.account else j.value.first.account, c.key, Some(c.disabled),
                 j.value.source, "quota_exhausted", RetryOf(ls), j.value.blockedAt, j.value.observedAt, ls))
  }

  // ---------------------------------------------------------------- merging is a join

  /** What merging is about: which limits are exhausted until when, and over which time. */
  datatype Extent = Extent(blockedAt: Time, observedAt: Time, retryAt: Option<Time>, limits: seq<Limit>)

  function ExtentOf(b: Block): Extent { Extent(b.blockedAt, b.observedAt, b.retryAt, b.limits) }

  predicate Names(b: Block, k: string, t: Option<Time>) { Limit(k, t) in b.limits }

  predicate NotAfter(a: Option<Time>, b: Option<Time>) { a.None? || (b.Some? && a.value <= b.value) }

  /** The least instant blocked, the latest observed, and for each kind named the latest reset named. */
  ghost predicate Bounds(has: Block -> bool, blockedAt: Time, observedAt: Time, limits: map<string, Option<Time>>) {
    && (forall b :: has(b) ==> blockedAt <= b.blockedAt && b.observedAt <= observedAt)
    && (exists b :: has(b) && b.blockedAt == blockedAt)
    && (exists b :: has(b) && b.observedAt == observedAt)
    && (forall b, k, t :: has(b) && Names(b, k, t) ==> k in limits && NotAfter(t, limits[k]))
    && (forall k :: k in limits ==> exists b :: has(b) && Names(b, k, limits[k]))
  }

  lemma BoundsAreUnique(has: Block -> bool, b1: Time, o1: Time, m1: map<string, Option<Time>>, b2: Time, o2: Time,
                        m2: map<string, Option<Time>>)
    requires Bounds(has, b1, o1, m1) && Bounds(has, b2, o2, m2)
    ensures b1 == b2 && o1 == o2 && m1 == m2
  {
    forall k | k in m1 ensures k in m2 && m1[k] == m2[k] {
      var b :| has(b) && Names(b, k, m1[k]);
      var d :| has(d) && Names(d, k, m2[k]);
    }
    forall k | k in m2 ensures k in m1 {
      var b :| has(b) && Names(b, k, m2[k]);
    }
    assert m1.Keys == m2.Keys;
  }

  lemma {:induction false} AddLimitsBounds(limits: map<string, Option<Time>>, ls: seq<Limit>)
    ensures var r := AddLimits(limits, ls);
            && (forall k :: k in limits ==> k in r && NotAfter(limits[k], r[k]))
            && (forall l :: l in ls ==> l.kind in r && NotAfter(l.reset, r[l.kind]))
            && (forall k :: k in r ==> (k in limits && r[k] == limits[k]) || Limit(k, r[k]) in ls)
  {
    if ls != [] {
      var n := |ls| - 1;
      AddLimitsBounds(limits, ls[..n]);
      assert ls == ls[..n] + [ls[n]];
    }
  }

  ghost function Among(blocks: seq<Option<Block>>): Block -> bool { (b: Block) => Some(b) in blocks }

  lemma {:induction false} JoinedBounds(blocks: seq<Option<Block>>)
    ensures Joined(blocks).None? <==> forall b :: Some(b) !in blocks
    ensures Joined(blocks).Some? ==>
              var j := Joined(blocks).value; Bounds(Among(blocks), j.blockedAt, j.observedAt, j.limits)
  {
    if blocks != [] {
      var n := |blocks| - 1;
      var init, last := blocks[..n], blocks[n];
      assert blocks == init + [last];
      JoinedBounds(init);
      assert forall b :: Some(b) in blocks <==> Some(b) in init || Some(b) == last;
      if last.Some? { JoinOneMore(init, last.value); }
    }
  }

  lemma JoinOneMore(init: seq<Option<Block>>, b: Block)
    requires Joined(init).None? <==> forall d :: Some(d) !in init
    requires Joined(init).Some? ==>
               var j := Joined(init).value; Bounds(Among(init), j.blockedAt, j.observedAt, j.limits)
    ensures var j := Joined(init + [Some(b)]);
            j.Some? && Bounds(Among(init + [Some(b)]), j.value.blockedAt, j.value.observedAt, j.value.limits)
  {
    var all := init + [Some(b)];
    assert all[..|init|] == init;
    var before := if Joined(init).Some? then Joined(init).value.limits else map[];
    AddLimitsBounds(before, b.limits);
    var j := Joined(all).value;
    assert j.limits == AddLimits(before, b.limits);
    forall d, k, t | Some(d) in all && Names(d, k, t) ensures k in j.limits && NotAfter(t, j.limits[k]) {
      if d != b { assert Among(init)(d); } else { assert Limit(k, t) in b.limits; }
    }
    forall k | k in j.limits ensures exists d :: Among(all)(d) && Names(d, k, j.limits[k]) {
      if Limit(k, j.limits[k]) in b.limits {
        assert Among(all)(b) && Names(b, k, j.limits[k]);
      } else {
        var d :| Among(init)(d) && Names(d, k, before[k]);
        assert Among(all)(d);
      }
    }
    JoinTimes(init, b);
  }

  lemma JoinTimes(init: seq<Option<Block>>, b: Block)
    requires Joined(init).None? <==> forall d :: Some(d) !in init
    requires Joined(init).Some? ==>
               var j := Joined(init).value; Bounds(Among(init), j.blockedAt, j.observedAt, j.limits)
    ensures var all := init + [Some(b)]; var j := Joined(all);
            && j.Some?
            && (forall d :: Among(all)(d) ==> j.value.blockedAt <= d.blockedAt && d.observedAt <= j.value.observedAt)
            && (exists d :: Among(all)(d) && d.blockedAt == j.value.blockedAt)
            && (exists d :: Among(all)(d) && d.observedAt == j.value.observedAt)
  {
    hide AddLimits;
    var all := init + [Some(b)];
    assert all[..|init|] == init;
    assert Among(all)(b);
    assert forall d :: Among(all)(d) <==> Among(init)(d) || d == b;
  }

  /** Which blocks are merged decides the result; their order and repetition do not. */
  lemma MergeIsSetLike(c: Cred, xs: seq<Option<Block>>, d: Cred, ys: seq<Option<Block>>)
    requires forall b :: Some(b) in xs <==> Some(b) in ys
    ensures Merge(c, xs).Some? <==> Merge(d, ys).Some?
    ensures Merge(c, xs).Some? ==> ExtentOf(Merge(c, xs).value) == ExtentOf(Merge(d, ys).value)
  {
    JoinedBounds(xs);
    JoinedBounds(ys);
    if Joined(xs).Some? {
      var i, j := Joined(xs).value, Joined(ys).value;
      SameBounds(Among(xs), Among(ys), i.blockedAt, i.observedAt, i.limits);
      BoundsAreUnique(Among(ys), i.blockedAt, i.observedAt, i.limits, j.blockedAt, j.observedAt, j.limits);
    }
  }

  lemma SameBounds(p: Block -> bool, q: Block -> bool, b: Time, o: Time, m: map<string, Option<Time>>)
    requires Bounds(p, b, o, m) && forall d :: p(d) <==> q(d)
    ensures Bounds(q, b, o, m)
  {}

  lemma ListedNames(limits: map<string, Option<Time>>, k: string, t: Option<Time>)
    ensures Limit(k, t) in Listed(limits) <==> k in limits && t == limits[k]
  {
    if k in limits && t == limits[k] {
      var i :| 0 <= i < |Sorted(limits.Keys)| && Sorted(limits.Keys)[i] == k;
      assert Listed(limits)[i] == Limit(k, t);
    }
  }

  /** A merged block stands for the blocks it was merged from. */
  lemma {:induction false} MergeNests(c: Cred, xs: seq<Option<Block>>, d: Cred, ys: seq<Option<Block>>)
    ensures var nested, flat := Merge(d, [Merge(c, xs)] + ys), Merge(d, xs + ys);
            && (nested.Some? <==> flat.Some?)
            && (nested.Some? ==> ExtentOf(nested.value) == ExtentOf(flat.value))
  {
    var m := Merge(c, xs);
    JoinedBounds(xs);
    JoinedBounds(xs + ys);
    JoinedBounds([m] + ys);
    if m.None? {
      assert forall b :: Some(b) in [m] + ys <==> Some(b) in xs + ys;
      MergeIsSetLike(d, [m] + ys, d, xs + ys);
    } else {
      assert m in [m] + ys;
      var i, j := Joined([m] + ys).value, Joined(xs + ys);
      assert forall b :: Some(b) in xs ==> Some(b) in xs + ys;
      NestedBounds(c, xs, ys, i.blockedAt, i.observedAt, i.limits);
      BoundsAreUnique(Among(xs + ys), i.blockedAt, i.observedAt, i.limits, j.value.blockedAt, j.value.observedAt,
                      j.value.limits);
    }
  }

  lemma NestedBounds(c: Cred, xs: seq<Option<Block>>, ys: seq<Option<Block>>, b: Time, o: Time,
                     limits: map<string, Option<Time>>)
    requires Merge(c, xs).Some? && Bounds(Among([Merge(c, xs)] + ys), b, o, limits)
    ensures Bounds(Among(xs + ys), b, o, limits)
  {
    hide Joined;
    var m, j := Merge(c, xs).value, Joined(xs).value;
    JoinedBounds(xs);
    forall k, t ensures Names(m, k, t) <==> k in j.limits && t == j.limits[k] { ListedNames(j.limits, k, t); }
    var rest := (d: Block) => Some(d) in ys;
    assert Among([Merge(c, xs)] + ys)(m);
    assert forall d :: Among([Merge(c, xs)] + ys)(d) <==> d == m || rest(d);
    assert forall d :: Among(xs + ys)(d) <==> Among(xs)(d) || rest(d);
    Replaced(Among(xs), m, j.limits, rest, Among([Merge(c, xs)] + ys), Among(xs + ys), b, o, limits);
  }

  /** A block with the bounds of `part` can stand for `part`. */
  lemma Replaced(part: Block -> bool, m: Block, ms: map<string, Option<Time>>, rest: Block -> bool,
                 short: Block -> bool, long: Block -> bool,
                 b: Time, o: Time, limits: map<string, Option<Time>>)
    requires Bounds(part, m.blockedAt, m.observedAt, ms) && (forall k, t :: Names(m, k, t) <==> k in ms && t == ms[k])
    requires (forall d :: short(d) <==> d == m || rest(d)) && (forall d :: long(d) <==> part(d) || rest(d))
    requires Bounds(short, b, o, limits)
    ensures Bounds(long, b, o, limits)
  {
    hide Names;
    var first :| part(first) && first.blockedAt == m.blockedAt;
    var last :| part(last) && last.observedAt == m.observedAt;
    assert short(m) && long(first) && long(last);
    forall d, k, t | long(d) && Names(d, k, t) ensures k in limits && NotAfter(t, limits[k]) {
      if part(d) { assert Names(m, k, ms[k]); }
    }
    forall k | k in limits ensures exists d :: long(d) && Names(d, k, limits[k]) {
      var e :| short(e) && Names(e, k, limits[k]);
      if e == m {
        var d :| part(d) && Names(d, k, ms[k]);
        assert long(d);
      }
    }
  }
}
