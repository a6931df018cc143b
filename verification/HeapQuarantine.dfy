/** The quarantine: freed blocks held back from reuse, oldest out first (Code/client/HeapHistory.cpp, and the free hook
    of Code/client/Games/Memory.cpp). */
module HeapQuarantine {
  import opened Basics
  import opened HeapHistory

  const STRIPES := 256

  datatype Held = Held(block: nat, size: nat, aligned: bool)

  /** The sizes of the blocks allocated since the hooks, and the blocks held, oldest first. */
  datatype Store = Store(sizes: map<nat, nat>, held: seq<Held>)

  function Total(held: seq<Held>): nat {
    if held == [] then 0 else held[0].size + Total(held[1..])
  }

  lemma {:induction false} TotalSnoc(held: seq<Held>, one: Held)
    ensures Total(held + [one]) == Total(held) + one.size
  {
    if held == [] {
      assert held + [one] == [one];
    } else {
      TotalSnoc(held[1..], one);
      assert (held + [one])[1..] == held[1..] + [one];
    }
  }

  function Noted(s: Store, block: nat, size: nat): Store {
    s.(sizes := s.sizes[block := size % SIZE_SPAN])
  }

  function TakenIn(s: Store, block: nat, aligned: bool): Store
    requires block in s.sizes
  {
    Store(s.sizes - {block}, s.held + [Held(block, s.sizes[block], aligned)])
  }

  /** `gone` is the shortest start of `held` without which the rest is within the limit. */
  ghost predicate ShortestEviction(limit: nat, held: seq<Held>, gone: nat) {
    && gone <= |held| && Total(held[gone..]) <= limit
    && forall k: nat {:trigger Total(held[k..])} :: k < gone ==> Total(held[k..]) > limit
  }

  /** The stripe of a block's size: the top eight of the 64 bits of a product. */
  function StripeOf(block: nat): (stripe: nat)
    ensures stripe < STRIPES
  {
    TopBits(block / 16 * 0x9E3779B97F4A7C15 % 0x1_0000_0000_0000_0000);
    block / 16 * 0x9E3779B97F4A7C15 % 0x1_0000_0000_0000_0000 / 0x100_0000_0000_0000
  }

  lemma TopBits(word: nat)
    requires word < 0x1_0000_0000_0000_0000
    ensures word / 0x100_0000_0000_0000 < STRIPES
  {
  }

  class Quarantine {
    /** Bytes held at most; 0 with the quarantine off. */
    const limit: nat
    const stripes: array<map<nat, nat>>
    var held: seq<Held>
    var heldBytes: nat

    ghost var sizes: map<nat, nat>

    ghost predicate SizeOk(block: nat)
      requires stripes.Length == STRIPES
      reads this, stripes
    {
      var stripe := stripes[StripeOf(block)];
      (block in stripe <==> block in sizes) && (block in sizes ==> stripe[block] == sizes[block])
    }

    ghost predicate Valid()
      reads this, stripes
    {
      && stripes.Length == STRIPES
      && (forall block: nat {:trigger SizeOk(block)} :: SizeOk(block))
      && heldBytes == Total(held)
    }

    ghost function Value(): Store
      reads this
    {
      Store(sizes, held)
    }

    constructor (limit: nat)
      ensures Valid() && fresh(stripes) && this.limit == limit && Value() == Store(map[], [])
    {
      this.limit := limit;
      stripes := new map<nat, nat>[STRIPES](_ => map[]);
      held, heldBytes, sizes := [], 0, map[];
    }

    method OnAllocate(block: nat, size: nat)
      requires Valid()
      modifies this`sizes, stripes
      ensures Valid() && Value() == if limit > 0 then Noted(old(Value()), block, size) else old(Value())
    {
      hide StripeOf;
      if limit > 0 {
        var s := StripeOf(block);
        sizes := sizes[block := size % SIZE_SPAN];
        stripes[s] := stripes[s][block := size % SIZE_SPAN];
        forall b: nat ensures SizeOk(b) {
          assert old(SizeOk(b));
        }
      }
    }

    /** Takes the block, unless its size is unknown: allocated before the hooks. */
    method Take(block: nat, aligned: bool) returns (taken: bool)
      requires Valid()
      modifies this, stripes
      ensures Valid() && taken == (limit > 0 && block in old(sizes))
      ensures Value() == if taken then TakenIn(old(Value()), block, aligned) else old(Value())
    {
      hide StripeOf;
      if limit == 0 { return false; }
      var s := StripeOf(block);
      assert SizeOk(block);
      if block !in stripes[s] { return false; }
      var size := stripes[s][block];
      stripes[s] := stripes[s] - {block};
      sizes := sizes - {block};
      forall b: nat ensures SizeOk(b) {
        assert old(SizeOk(b));
      }
      TotalSnoc(held, Held(block, size, aligned));
      held := held + [Held(block, size, aligned)];
      heldBytes := heldBytes + size;
      forall b: nat ensures SizeOk(b) {
        assert old(SizeOk(b));
      }
      return true;
    }

    /** The oldest block held, if more bytes are held than the limit. */
    method TakeEvicted() returns (evicted: Option<Held>)
      requires Valid()
      modifies this`held, this`heldBytes
      ensures Valid()
      ensures evicted.None? <==> Total(old(held)) <= limit
      ensures evicted.None? ==> held == old(held)
      ensures evicted.Some? ==> old(held) == [evicted.value] + held
    {
      if heldBytes <= limit || held == [] { return None; }
      var oldest := held[0];
      held := held[1..];
      heldBytes := heldBytes - oldest.size;
      forall b: nat ensures SizeOk(b) {
        assert old(SizeOk(b));
      }
      return Some(oldest);
    }

    /** What the free hook does with a block no guard page has: the blocks it has the engine really free, in order. */
    method HoldOrFree(block: nat, aligned: bool) returns (freed: seq<(nat, bool)>)
      requires Valid()
      modifies this, stripes
      ensures Valid()
      ensures !(limit > 0 && block in old(sizes)) ==> freed == [(block, aligned)] && Value() == old(Value())
      ensures limit > 0 && block in old(sizes) ==>
                var taken := TakenIn(old(Value()), block, aligned);
                && |freed| <= |taken.held| && ShortestEviction(limit, taken.held, |freed|)
                && Value() == taken.(held := taken.held[|freed|..])
                && forall k :: 0 <= k < |freed| ==> freed[k] == (taken.held[k].block, taken.held[k].aligned)
    {
      hide Total, StripeOf;
      var taken := Take(block, aligned);
      if !taken { return [(block, aligned)]; }
      freed := [];
      ghost var all := held;
      var evicted := TakeEvicted();
      assert all[0..] == all;
      while evicted.Some?
        invariant Valid() && sizes == old(sizes) - {block} && stripes.Length == STRIPES
        invariant |freed| <= |all| && (forall k :: 0 <= k < |freed| ==> freed[k] == (all[k].block, all[k].aligned))
        invariant forall k: nat {:trigger Total(all[k..])} :: k < |freed| ==> Total(all[k..]) > limit
        invariant evicted.None? ==> held == all[|freed|..] && Total(held) <= limit
        invariant evicted.Some? ==> [evicted.value] + held == all[|freed|..] && Total(all[|freed|..]) > limit
        decreases |all| - |freed|
      {
        ghost var rest := all[|freed|..];
        assert rest[0] == all[|freed|] && rest[1..] == held && all[|freed| + 1..] == held;
        freed := freed + [(evicted.value.block, evicted.value.aligned)];
        evicted := TakeEvicted();
      }
    }
  }

  // ----- Any run of allocations and frees, the quarantine on -----

  datatype Op = Get(block: nat, size: nat) | Give(block: nat, aligned: bool)

  /** The program's live blocks, the store, and every block ever taken and ever let go of, in order. */
  datatype World = World(live: map<nat, Block>, store: Store, taken: seq<Held>, evicted: seq<Held>)

  ghost predicate NotHeld(held: seq<Held>, block: nat) {
    forall k {:trigger held[k]} :: 0 <= k < |held| ==> held[k].block != block
  }

  function CallOf(op: Op): Call {
    match op
    case Get(block, size) => Allocate(block, size)
    case Give(block, aligned) => Free(block)
  }

  /** A step of the program. The engine still counts a held block as allocated. */
  ghost predicate Next(limit: nat, w: World, op: Op, at: nat, w': World) {
    && Legal(w.live, CallOf(op)) && w'.live == Applied(w.live, CallOf(op), at)
    && match op
       case Get(block, size) =>
         NotHeld(w.store.held, block) && w' == World(w'.live, Noted(w.store, block, size), w.taken, w.evicted)
       case Give(block, aligned) =>
         if block !in w.store.sizes then w' == w.(live := w'.live)
         else
           var s := TakenIn(w.store, block, aligned);
           && |w'.store.held| <= |s.held| && ShortestEviction(limit, s.held, |s.held| - |w'.store.held|)
           && w' == World(w'.live, s.(held := s.held[|s.held| - |w'.store.held|..]),
                          w.taken + [s.held[|s.held| - 1]], w.evicted + s.held[..|s.held| - |w'.store.held|])
  }

  ghost predicate Run(limit: nat, ws: seq<World>, ops: seq<Op>) {
    && |ws| == |ops| + 1
    && Before(ws[0].live) && ws[0] == World(ws[0].live, Store(map[], []), [], [])
    && forall i: nat {:trigger StepAt(limit, ws, ops, i)} :: i < |ops| ==> StepAt(limit, ws, ops, i)
  }

  ghost predicate StepAt(limit: nat, ws: seq<World>, ops: seq<Op>, i: nat)
    requires i < |ops| && |ws| == |ops| + 1
  {
    Next(limit, ws[i], ops[i], i, ws[i + 1])
  }

  /** A held block is not live, nor held twice. */
  ghost predicate HeldOk(w: World, k: nat)
    requires k < |w.store.held|
  {
    && w.store.held[k].block !in w.live
    && forall j {:trigger w.store.held[j]} :: 0 <= j < |w.store.held| && j != k ==>
        w.store.held[j].block != w.store.held[k].block
  }

  ghost predicate Inv(limit: nat, w: World) {
    && Total(w.store.held) <= limit
    && w.taken == w.evicted + w.store.held
    && (forall k: nat {:trigger HeldOk(w, k)} :: k < |w.store.held| ==> HeldOk(w, k))
    && (forall b {:trigger b in w.live} :: b in w.live ==> w.live[b].size > 0)
    && (forall b {:trigger b in w.store.sizes} :: b in w.store.sizes <==> b in w.live && w.live[b].born >= 0)
  }

  lemma GetKeepsInv(limit: nat, w: World, op: Op, at: nat, w': World)
    requires Inv(limit, w) && Next(limit, w, op, at, w') && op.Get?
    ensures Inv(limit, w')
  {
    forall k: nat | k < |w'.store.held| ensures HeldOk(w', k) {
      assert HeldOk(w, k);
    }
  }

  lemma GiveKeepsInv(limit: nat, w: World, op: Op, at: nat, w': World)
    requires Inv(limit, w) && Next(limit, w, op, at, w') && op.Give?
    ensures Inv(limit, w')
  {
    if op.block in w.store.sizes {
      GiveHeldKeepsInv(limit, w, op, at, w');
    } else {
      forall k: nat | k < |w'.store.held| ensures HeldOk(w', k) { assert HeldOk(w, k); }
    }
  }

  /** The block is held, and the oldest ones may go. */
  lemma GiveHeldKeepsInv(limit: nat, w: World, op: Op, at: nat, w': World)
    requires Inv(limit, w) && Next(limit, w, op, at, w') && op.Give? && op.block in w.store.sizes
    ensures Inv(limit, w')
  {
    hide Total;
    var all := TakenIn(w.store, op.block, op.aligned).held;
    var gone := |all| - |w'.store.held|;
    EvictionSplits(w.evicted, w.store.held, all[|all| - 1], gone);
    LaterHeldOk(limit, w, op, at, w');
  }

  lemma LaterHeldOk(limit: nat, w: World, op: Op, at: nat, w': World)
    requires Inv(limit, w) && Next(limit, w, op, at, w') && op.Give? && op.block in w.store.sizes
    ensures forall k: nat {:trigger HeldOk(w', k)} :: k < |w'.store.held| ==> HeldOk(w', k)
  {
    hide Total, ShortestEviction;
    var all := TakenIn(w.store, op.block, op.aligned).held;
    var gone := |all| - |w'.store.held|;
    forall k: nat | k < |w'.store.held| ensures HeldOk(w', k) {
      AllHeldOk(w, op.block, all, k + gone);
    }
  }

  lemma AllHeldOk(w: World, block: nat, all: seq<Held>, k: nat)
    requires block in w.live && |all| == |w.store.held| + 1 && all[..|w.store.held|] == w.store.held
    requires all[|w.store.held|].block == block && k < |all|
    requires forall k: nat {:trigger HeldOk(w, k)} :: k < |w.store.held| ==> HeldOk(w, k)
    ensures k < |w.store.held| ==> all[k].block !in w.live
    ensures all[k].block !in w.live - {block}
    ensures forall j {:trigger all[j]} :: 0 <= j < |all| && j != k ==> all[j].block != all[k].block
  {
    assert forall j {:trigger all[j]} :: 0 <= j < |w.store.held| ==> all[j] == w.store.held[j];
    if k < |w.store.held| { assert HeldOk(w, k); }
    forall j | 0 <= j < |all| && j != k ensures all[j].block != all[k].block {
      if j < |w.store.held| { assert HeldOk(w, j); }
    }
  }

  lemma EvictionSplits(evicted: seq<Held>, held: seq<Held>, one: Held, gone: nat)
    requires gone <= |held| + 1
    ensures (evicted + held) + [one] == (evicted + (held + [one])[..gone]) + (held + [one])[gone..]
  {
  }

  /** In any run: what is held is within the limit; the blocks taken are the blocks let go of and then the blocks held,
      each once and in order, so the quarantine is a queue; no block held is live or held twice; and the sizes known
      are those of exactly the live blocks allocated since the hooks. */
  lemma {:induction false} QuarantineIsAQueue(limit: nat, ws: seq<World>, ops: seq<Op>, i: nat)
    requires Run(limit, ws, ops) && i < |ws|
    ensures Inv(limit, ws[i])
  {
    if i > 0 {
      QuarantineIsAQueue(limit, ws, ops, i - 1);
      assert StepAt(limit, ws, ops, i - 1);
      if ops[i - 1].Get? {
        GetKeepsInv(limit, ws[i - 1], ops[i - 1], i - 1, ws[i]);
      } else {
        GiveKeepsInv(limit, ws[i - 1], ops[i - 1], i - 1, ws[i]);
      }
    }
  }

  // ----- What is known of sizes -----

  /** The size a live block was last asked for, if since the hooks. */
  function LastAsked(ops: seq<Op>, n: nat, block: nat): Option<nat>
    requires n <= |ops|
  {
    if n == 0 then None
    else
      match ops[n - 1]
      case Get(b, size) => if b == block then Some(size) else LastAsked(ops, n - 1, block)
      case Give(b, _) => if b == block then None else LastAsked(ops, n - 1, block)
  }

  /** The size noted of a block is what it was asked for, modulo 4 GiB. */
  lemma {:induction false} SizesAreAsked(limit: nat, ws: seq<World>, ops: seq<Op>, i: nat, block: nat)
    requires Run(limit, ws, ops) && i < |ws|
    ensures var asked := LastAsked(ops, i, block);
            && (block in ws[i].store.sizes <==> asked.Some?)
            && (asked.Some? ==> ws[i].store.sizes[block] == asked.value % 0x1_0000_0000)
  {
    hide ShortestEviction, Legal, Applied;
    if i > 0 {
      SizesAreAsked(limit, ws, ops, i - 1, block);
      assert StepAt(limit, ws, ops, i - 1);
    }
  }

  /** In any run a freed block goes into the quarantine, as the newest there, with the size it was asked for modulo
      4 GiB, exactly if it was allocated since the hooks. */
  lemma FreedIsTaken(limit: nat, ws: seq<World>, ops: seq<Op>, i: nat)
    requires Run(limit, ws, ops) && i < |ops| && ops[i].Give? && |ws| == |ops| + 1
    ensures match LastAsked(ops, i, ops[i].block)
            case None => ws[i + 1].store == ws[i].store && ws[i + 1].taken == ws[i].taken
            case Some(asked) =>
              ws[i + 1].taken == ws[i].taken + [Held(ops[i].block, asked % 0x1_0000_0000, ops[i].aligned)]
  {
    hide ShortestEviction, Legal, Applied;
    SizesAreAsked(limit, ws, ops, i, ops[i].block);
    assert StepAt(limit, ws, ops, i);
  }
}
