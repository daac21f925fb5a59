/** What the block allocator promises, block by block: each managed disk block is
    referenced (with a count), free, in the in-memory limbo, or in the limbo table. */
module AllocatorSpec {

  datatype Space = Space(refs: map<nat, nat>, free: set<nat>, limbo: set<nat>, limboTab: set<nat>)

  ghost function Count(refs: map<nat, nat>, b: nat): nat {
    if b in refs then refs[b] else 0
  }

  /** One more reference to each block of bs. */
  ghost function Inc(refs: map<nat, nat>, bs: set<nat>): map<nat, nat> {
    map b | b in refs.Keys + bs :: Count(refs, b) + if b in bs then 1 else 0
  }

  /** One reference fewer to each block of bs; a block left with none is no longer referenced. */
  ghost function Dec(refs: map<nat, nat>, bs: set<nat>): map<nat, nat> {
    map b | b in refs && (b in bs ==> refs[b] > 1) :: if b in bs then refs[b] - 1 else refs[b]
  }

  /** The blocks of bs that lose their last reference. */
  ghost function Dropped(refs: map<nat, nat>, bs: set<nat>): set<nat> {
    set b | b in bs && Count(refs, b) == 1
  }

  ghost predicate Positive(refs: map<nat, nat>) {
    forall b :: b in refs ==> refs[b] >= 1
  }

  // ---- the operations ----

  ghost function Allocate(s: Space, bs: set<nat>): Space {
    s.(refs := Inc(s.refs, bs), free := s.free - bs)
  }

  ghost function Share(s: Space, bs: set<nat>): Space {
    s.(refs := Inc(s.refs, bs))
  }

  ghost function Release(s: Space, bs: set<nat>): Space {
    s.(refs := Dec(s.refs, bs), limbo := s.limbo + Dropped(s.refs, bs))
  }

  ghost function CommitLimbo(s: Space): Space {
    s.(limbo := {}, limboTab := s.limboTab + s.limbo)
  }

  ghost function ReleaseLimbo(s: Space): Space {
    s.(free := s.free + s.limboTab, limboTab := {})
  }

  datatype Op =
    | OpAllocate(bs: set<nat>)
    | OpShare(bs: set<nat>)
    | OpRelease(bs: set<nat>)
    | OpCommitLimbo
    | OpReleaseLimbo

  /** What the callers of each operation guarantee. */
  ghost predicate Enabled(s: Space, op: Op) {
    match op
    case OpAllocate(bs) => bs <= s.free
    case OpShare(bs) => bs <= s.refs.Keys
    case OpRelease(bs) => bs <= s.refs.Keys
    case OpCommitLimbo => true
    case OpReleaseLimbo => true
  }

  ghost function Apply(s: Space, op: Op): Space {
    match op
    case OpAllocate(bs) => Allocate(s, bs)
    case OpShare(bs) => Share(s, bs)
    case OpRelease(bs) => Release(s, bs)
    case OpCommitLimbo => CommitLimbo(s)
    case OpReleaseLimbo => ReleaseLimbo(s)
  }

  /** Each operation of the sequence is enabled when its turn comes. */
  ghost predicate EnabledAll(s: Space, ops: seq<Op>)
    decreases |ops|
  {
    ops != [] ==> Enabled(s, ops[0]) && EnabledAll(Apply(s, ops[0]), ops[1..])
  }

  ghost function ApplyAll(s: Space, ops: seq<Op>): Space
    decreases |ops|
  {
    if ops == [] then s else ApplyAll(Apply(s, ops[0]), ops[1..])
  }

  // ---- the properties ----

  /** No block is in two of the four places, and every reference count is at least 1. */
  ghost predicate Partitioned(s: Space) {
    && Positive(s.refs)
    && s.refs.Keys !! s.free
    && s.refs.Keys !! s.limbo
    && s.refs.Keys !! s.limboTab
    && s.free !! s.limbo
    && s.free !! s.limboTab
    && s.limbo !! s.limboTab
  }

  ghost function Managed(s: Space): set<nat> {
    s.refs.Keys + s.free + s.limbo + s.limboTab
  }

  lemma StepKeepsPartition(s: Space, op: Op)
    requires Partitioned(s) && Enabled(s, op)
    ensures Partitioned(Apply(s, op))
    ensures Managed(Apply(s, op)) == Managed(s)
  {
    var t := Apply(s, op);
    forall b ensures b in Managed(t) <==> b in Managed(s) {
    }
  }

  /** Whatever sequence of operations runs, every managed block stays in exactly one place. */
  lemma {:induction false} RunKeepsPartition(s: Space, ops: seq<Op>)
    requires Partitioned(s) && EnabledAll(s, ops)
    ensures Partitioned(ApplyAll(s, ops))
    ensures Managed(ApplyAll(s, ops)) == Managed(s)
    decreases |ops|
  {
    if ops != [] {
      StepKeepsPartition(s, ops[0]);
      RunKeepsPartition(Apply(s, ops[0]), ops[1..]);
    }
  }

  /** Taking a reference and dropping it again restores every count, and nothing goes to
      limbo that was referenced before. */
  lemma IncThenDec(s: Space, bs: set<nat>)
    requires Positive(s.refs)
    ensures Dec(Inc(s.refs, bs), bs) == s.refs
    ensures Dropped(Inc(s.refs, bs), bs) == bs - s.refs.Keys
    ensures bs <= s.refs.Keys ==> Release(Share(s, bs), bs) == s
  {
    var m := Inc(s.refs, bs);
    assert forall b :: b in m ==> m[b] == Count(s.refs, b) + if b in bs then 1 else 0;
    assert Dec(m, bs) == s.refs;
    assert Dropped(m, bs) == bs - s.refs.Keys;
  }

  /** Conversely, dropping a reference and taking it again restores every count. */
  lemma DecThenInc(refs: map<nat, nat>, bs: set<nat>)
    requires Positive(refs) && bs <= refs.Keys
    ensures Inc(Dec(refs, bs), bs) == refs
  {
    var d := Dec(refs, bs);
    assert forall b :: b in refs && b !in d ==> refs[b] == 1 && b in bs;
    assert Inc(d, bs).Keys == refs.Keys;
  }

  /** An extent that is released waits through one whole commit: it is free again only after
      a commit has moved it to the limbo table and then emptied that table. */
  lemma LimboDelaysReuse(s: Space, bs: set<nat>)
    requires Partitioned(s) && bs <= s.refs.Keys
    ensures var d := Dropped(s.refs, bs);
            var r := Release(s, bs);
            && d !! r.free && d !! ReleaseLimbo(r).free && d !! CommitLimbo(r).free
            && d <= ReleaseLimbo(CommitLimbo(r)).free
  {
  }
}
