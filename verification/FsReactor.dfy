/** The reactor that runs the callbacks: generation-guarded slots, a completion queue, and the flush and drain loops. */
module FsReactor {
  import opened Bytes
  import opened FsCallbacks

  // ----- the slot table

  const GENERATIONS: nat := 0x1_0000_0000

  datatype Token = Token(generation: nat, slot: nat)

  /** A slot remembers the callback of its operation; the operation itself is kept for the request's log. */
  datatype Slot = Slot(generation: nat, used: bool, item: Option<Item>, key: nat)

  datatype Completion = Completion(token: Token, report: Report)

  /** What a completion will be handed to. */
  datatype Handed = Handed(item: Item, key: nat, report: Report)

  predicate Live(slots: seq<Slot>, tok: Token) {
    tok.slot < |slots| && slots[tok.slot].used && slots[tok.slot].generation ==
    tok.generation && slots[tok.slot].item.Some?
  }

  /** The free list and the used slots partition the table. */
  predicate Partitioned(slots: seq<Slot>, free: seq<nat>) {
    && (forall i :: 0 <= i < |free| ==> free[i] < |slots| && !slots[free[i]].used)
    && (forall i, j :: 0 <= i < j < |free| ==> free[i] != free[j])
    && (forall s :: 0 <= s < |slots| && !slots[s].used ==> s in free)
  }

  /** Every queued completion names a live slot of its own, and every used slot has its completion queued. */
  predicate Queued(slots: seq<Slot>, cq: seq<Completion>) {
    && (forall i :: 0 <= i < |cq| ==> Live(slots, cq[i].token))
    && (forall i, j :: 0 <= i < j < |cq| ==> cq[i].token.slot != cq[j].token.slot)
    && (forall s :: 0 <= s < |slots| && slots[s].used ==> exists i :: 0 <= i < |cq| && cq[i].token.slot == s)
  }

  ghost function HandedBy(slots: seq<Slot>, cq: seq<Completion>): seq<Handed>
    requires forall i :: 0 <= i < |cq| ==> Live(slots, cq[i].token)
  {
    seq(|cq|, i requires 0 <= i < |cq| && Live(slots, cq[i].token) =>
      Handed(slots[cq[i].token.slot].item.value, slots[cq[i].token.slot].key, cq[i].report))
  }

  /** One slot was taken into use, under a token no earlier use of it had last; the others are as they were. */
  predicate Allocated(was: seq<Slot>, slots: seq<Slot>, tok: Token) {
    && Live(slots, tok) && |slots| >= |was|
    && (forall s :: 0 <= s < |slots| && s != tok.slot ==> s < |was| && slots[s] == was[s])
    && (tok.slot < |was| ==> !was[tok.slot].used && tok.generation != was[tok.slot].generation)
  }

  class Core {
    var slots: seq<Slot>
    var free: seq<nat>
    var cq: seq<Completion>

    ghost predicate Valid()
      reads this
    {
      Partitioned(slots, free) && Queued(slots, cq)
    }

    /** The queued completions with what they will be handed to. */
    ghost function Pending(): seq<Handed>
      requires Valid()
      reads this
    {
      HandedBy(slots, cq)
    }

    constructor ()
      ensures Valid() && Pending() == [] && slots == []
    {
      slots, free, cq := [], [], [];
    }

    /** A slot for an operation, reused if one is free; its generation moves on. */
    method Alloc(key: nat, item: Item) returns (tok: Token)
      requires Partitioned(slots, free)
      modifies this`slots, this`free
      ensures Partitioned(slots, free) && Allocated(old(slots), slots, tok)
      ensures slots[tok.slot] == Slot(tok.generation, true, Some(item), key)
    {
      var slot;
      if free != [] {
        slot := free[|free| - 1];
        free := free[..|free| - 1];
      } else {
        slot := |slots|;
        slots := slots + [Slot(0, false, None, 0)];
      }
      var generation := (slots[slot].generation + 1) % GENERATIONS;
      slots := slots[slot := Slot(generation, true, Some(item), key)];
      tok := Token(generation, slot);
    }

    /** Allocate for an operation and queue its completion. */
    method Post(key: nat, item: Item, report: Report)
      requires Valid()
      modifies this
      ensures Valid() && Pending() == old(Pending()) + [Handed(item, key, report)]
    {
      ghost var was := slots;
      var tok := Alloc(key, item);
      PostedQueue(was, slots, cq, Completion(tok, report));
      cq := cq + [Completion(tok, report)];
      assert Pending()[|old(cq)|] == Handed(item, key, report);
    }

    /** Retrieve and recycle the slot a token names; a stale or foreign token is inert. */
    method TakeOp(tok: Token) returns (taken: Option<(Item, nat)>)
      requires Partitioned(slots, free) && forall s :: 0 <= s < |slots| && slots[s].used ==> slots[s].item.Some?
      modifies this`slots, this`free
      ensures Partitioned(slots, free)
      ensures if Live(old(slots), tok)
              then && taken == Some((old(slots)[tok.slot].item.value, old(slots)[tok.slot].key))
                   && |slots| == |old(slots)| && !slots[tok.slot].used && slots[tok.slot].generation == tok.generation
                   && forall s :: 0 <= s < |slots| && s != tok.slot ==> slots[s] == old(slots)[s]
              else taken.None? && slots == old(slots) && free == old(free)
    {
      if tok.slot >= |slots| || !slots[tok.slot].used || slots[tok.slot].generation != tok.generation {
        return None;
      }
      var e := slots[tok.slot];
      taken := Some((e.item.value, e.key));
      slots := slots[tok.slot := e.(used := false, item := None)];
      free := free + [tok.slot];
    }

    /** The next completion with its callback; taking it frees its slot. */
    method Next() returns (h: Handed)
      requires Valid() && cq != []
      modifies this
      ensures Valid() && [h] + Pending() == old(Pending()) && |cq| == |old(cq)| - 1
    {
      var comp := cq[0];
      UsedHasItem(slots, cq);
      ghost var was := slots;
      var taken := TakeOp(comp.token);
      h := Handed(taken.value.0, taken.value.1, comp.report);
      TakenQueue(was, slots, cq);
      cq := cq[1..];
    }
  }

  lemma {:induction false} UsedHasItem(slots: seq<Slot>, cq: seq<Completion>)
    requires Queued(slots, cq)
    ensures forall s :: 0 <= s < |slots| && slots[s].used ==> slots[s].item.Some?
  {
    forall s | 0 <= s < |slots| && slots[s].used
      ensures slots[s].item.Some?
    {
      var i :| 0 <= i < |cq| && cq[i].token.slot == s;
      assert Live(slots, cq[i].token);
    }
  }

  lemma {:induction false} PostedQueue(was: seq<Slot>, slots: seq<Slot>, cq: seq<Completion>, c: Completion)
    requires Queued(was, cq) && Allocated(was, slots, c.token)
    ensures Queued(slots, cq + [c])
    ensures forall i :: 0 <= i < |cq| ==> Live(slots, cq[i].token) && slots[cq[i].token.slot] == was[cq[i].token.slot]
  {
    var q := cq + [c];
    assert forall i :: 0 <= i < |cq| ==> Live(was, cq[i].token) && cq[i].token.slot != c.token.slot;
    forall s | 0 <= s < |slots| && slots[s].used
      ensures exists i :: 0 <= i < |q| && q[i].token.slot == s
    {
      if s == c.token.slot {
        assert q[|cq|].token.slot == s;
      } else {
        var i :| 0 <= i < |cq| && cq[i].token.slot == s;
        assert q[i].token.slot == s;
      }
    }
  }

  lemma {:induction false} TakenQueue(was: seq<Slot>, slots: seq<Slot>, cq: seq<Completion>)
    requires Queued(was, cq) && cq != [] && |slots| == |was| && !slots[cq[0].token.slot].used
    requires forall s :: 0 <= s < |slots| && s != cq[0].token.slot ==> slots[s] == was[s]
    ensures Queued(slots, cq[1..])
    ensures forall i :: 0 < i < |cq| ==> Live(slots, cq[i].token) && slots[cq[i].token.slot] == was[cq[i].token.slot]
  {
    var q := cq[1..];
    assert forall i :: 0 < i < |cq| ==> Live(was, cq[i].token) && cq[i].token.slot != cq[0].token.slot;
    forall s | 0 <= s < |slots| && slots[s].used
      ensures exists i :: 0 <= i < |q| && q[i].token.slot == s
    {
      var i :| 0 <= i < |cq| && cq[i].token.slot == s;
      assert q[i - 1].token.slot == s;
    }
  }

  // ----- staging, flat as it is kept

  datatype Staged = Staged(item: Item, key: nat, linkNext: bool)

  /** The first `n` operations of a run, each but the run's last linked to the next. */
  function FlatRun(run: Run, n: nat): (r: seq<Staged>)
    requires n <= |run.items|
    ensures |r| == n
  {
    if n == 0 then [] else FlatRun(run, n - 1) + [Staged(run.items[n - 1], run.key, n < |run.items|)]
  }

  function Flat(runs: seq<Run>): seq<Staged> {
    if runs == [] then []
    else Flat(runs[..|runs| - 1]) + FlatRun(runs[|runs| - 1], |runs[|runs| - 1].items|)
  }

  lemma {:induction false} NothingStaged()
    ensures Flat([]) == []
  {
  }

  lemma {:induction false} NothingQueued(slots: seq<Slot>)
    requires Queued(slots, [])
    ensures HandedBy(slots, []) == []
  {
  }

  lemma {:induction false} FlatAppend(a: seq<Run>, b: seq<Run>)
    ensures Flat(a + b) == Flat(a) + Flat(b)
    decreases |b|
  {
    hide FlatRun;
    if b == [] {
      Empties(a);
      Empties(Flat(a));
    } else {
      var front, last := b[..|b| - 1], b[|b| - 1];
      assert (a + b)[..|a + b| - 1] == a + front;
      FlatAppend(a, front);
      AppendAppend(Flat(a), Flat(front), FlatRun(last, |last.items|));
    }
  }

  // ----- flushing

  /** What the kernel reports for the `n`-th operation it is given. */
  type World = (nat, Op) -> Report

  ghost predicate SaneWorld(world: World) {
    forall n, op :: Sane(op, world(n, op))
  }

  datatype Flushing = Flushing(reports: seq<Report>, severed: bool, calls: nat)

  /** The first `n` staged operations run: a failure severs the rest of its linked run. */
  function FlushTo(staged: seq<Staged>, n: nat, world: World, calls: nat): (f: Flushing)
    requires n <= |staged|
    ensures |f.reports| == n
  {
    if n == 0 then Flushing([], false, calls)
    else
      var f, s := FlushTo(staged, n - 1, world, calls), staged[n - 1];
      var r := if f.severed then Report(-ECANCELED, Nothing) else world(f.calls, s.item.op);
      Flushing(f.reports + [r], s.linkNext && (f.severed || r.res < 0), if f.severed then f.calls else f.calls + 1)
  }

  lemma {:induction false} FlushPrefix(a: seq<Staged>, b: seq<Staged>, n: nat, world: World, calls: nat)
    requires n <= |a|
    ensures FlushTo(a + b, n, world, calls) == FlushTo(a, n, world, calls)
  {
    if n > 0 {
      FlushPrefix(a, b, n - 1, world, calls);
    }
  }

  predicate Fails(rs: seq<Report>) {
    exists i :: 0 <= i < |rs| && rs[i].res < 0
  }

  /** Up to the first failure, each operation was given to the kernel, in order, and reports what it said. */
  predicate Genuine(items: seq<Item>, rs: seq<Report>, world: World, calls: nat) {
    && |rs| == |items|
    && forall i :: 0 <= i < |rs| && !Fails(rs[..i]) ==> rs[i] == world(calls + i, items[i].op)
  }

  /** How many operations of a run were given to the kernel. */
  function Made(rs: seq<Report>): nat {
    if rs == [] then 0 else Made(rs[..|rs| - 1]) + if Fails(rs[..|rs| - 1]) then 0 else 1
  }

  function MadeAll(rss: seq<seq<Report>>): nat {
    if rss == [] then 0 else MadeAll(rss[..|rss| - 1]) + Made(rss[|rss| - 1])
  }

  predicate GenuineAll(runs: seq<Run>, rss: seq<seq<Report>>, world: World, calls: nat)
    requires |rss| == |runs|
  {
    runs == [] ||
    var n := |runs| - 1;
    && GenuineAll(runs[..n], rss[..n], world, calls)
    && Genuine(runs[n].items, rss[n], world, calls + MadeAll(rss[..n]))
  }

  lemma {:induction false} MadeWithout(rs: seq<Report>)
    requires !Fails(rs)
    ensures Made(rs) == |rs|
    decreases |rs|
  {
    if rs != [] {
      assert forall i :: 0 <= i < |rs| - 1 ==> rs[..|rs| - 1][i] == rs[i];
      MadeWithout(rs[..|rs| - 1]);
    }
  }

  lemma {:induction false} GenuineSnoc(items: seq<Item>, before: seq<Report>, r: Report, world: World, calls: nat)
    requires |items| == |before| + 1 && Genuine(items[..|before|], before, world, calls)
    requires !Fails(before) ==> r == world(calls + Made(before), items[|before|].op)
    ensures Genuine(items, before + [r], world, calls)
    ensures Made(before + [r]) == Made(before) + if Fails(before) then 0 else 1
  {
    hide Fails;
    var n, rs := |before|, before + [r];
    assert rs[..n] == before;
    forall i | 0 <= i < |rs| && !Fails(rs[..i])
      ensures rs[i] == world(calls + i, items[i].op)
    {
      if i < n {
        assert rs[..i] == before[..i] && rs[i] == before[i] && items[..n][i] == items[i];
      } else {
        MadeWithout(before);
      }
    }
  }

  /** What flushing the first `n` operations of a run adds, given that the runs before it left nothing severed. */
  ghost predicate RunFlushed(f: Flushing, base: Flushing, run: Run, n: nat, rs: seq<Report>, world: World)
    requires n <= |run.items|
  {
    && |rs| == n && f.reports == base.reports + rs && Legal(run.items[..n], rs)
    && Genuine(run.items[..n], rs, world, base.calls) && f.calls == base.calls + Made(rs)
    && (n < |run.items| || n == 0 ==> (f.severed <==> Fails(rs)))
    && (n == |run.items| ==> !f.severed)
  }

  lemma {:induction false} FlushRun(a: seq<Staged>, run: Run, n: nat, world: World, calls: nat)
    returns (rs: seq<Report>)
    requires n <= |run.items| && SaneWorld(world) && !FlushTo(a, |a|, world, calls).severed
    ensures RunFlushed(FlushTo(a + FlatRun(run, n), |a| + n, world, calls), FlushTo(a, |a|, world, calls), run, n, rs,
                       world)
  {
    hide FlushTo, Legal, SaneWorld, Genuine;
    var base := FlushTo(a, |a|, world, calls);
    if n == 0 {
      rs := [];
      Empties(a);
      Empties(base.reports);
      NothingIsLegal();
      NothingIsGenuine(world, base.calls);
      assert run.items[..0] == [];
    } else {
      var before := FlushRun(a, run, n - 1, world, calls);
      var flat, last := FlatRun(run, n - 1), Staged(run.items[n - 1], run.key, n < |run.items|);
      AppendAppend(a, flat, [last]);
      FlushLast(a + flat, last, world, calls);
      var f := FlushTo(a + flat, |a| + n - 1, world, calls);
      WorldIsSane(world, f.calls, last.item.op);
      var r := if f.severed then Report(-ECANCELED, Nothing) else world(f.calls, last.item.op);
      rs := before + [r];
      StepFlushed(f, base, run, n, before, r, world);
    }
  }

  lemma {:induction false} NothingIsGenuine(world: World, calls: nat)
    ensures Genuine([], [], world, calls) && Made([]) == 0
  {
  }

  lemma {:induction false} NothingIsLegal()
    ensures Legal([], []) && !Fails([])
  {
  }

  lemma {:induction false} StepFlushed(f: Flushing, base: Flushing, run: Run, n: nat, before: seq<Report>, r: Report,
                                       world: World)
    requires 0 < n <= |run.items| && RunFlushed(f, base, run, n - 1, before, world)
    requires if f.severed then r == Report(-ECANCELED, Nothing)
             else Sane(run.items[n - 1].op, r) && r == world(f.calls, run.items[n - 1].op)
    ensures var g := Flushing(f.reports + [r], n < |run.items| && (f.severed || r.res < 0),
                              if f.severed then f.calls else f.calls + 1);
            RunFlushed(g, base, run, n, before + [r], world)
  {
    hide Legal, Fails, Genuine, Made;
    AppendAppend(base.reports, before, [r]);
    assert run.items[..n][..n - 1] == run.items[..n - 1];
    GenuineSnoc(run.items[..n], before, r, world, base.calls);
    LegalSnoc(run.items, before, r, n, f.severed);
  }

  lemma {:induction false} FlushLast(a: seq<Staged>, s: Staged, world: World, calls: nat)
    ensures var f := FlushTo(a, |a|, world, calls);
            var r := if f.severed then Report(-ECANCELED, Nothing) else world(f.calls, s.item.op);
            FlushTo(a + [s], |a| + 1, world, calls) ==
            Flushing(f.reports + [r], s.linkNext && (f.severed || r.res < 0),
                     if f.severed then f.calls else f.calls + 1)
  {
    FlushPrefix(a, [s], |a|, world, calls);
    assert (a + [s])[|a|] == s;
  }

  lemma {:induction false} WorldIsSane(world: World, n: nat, op: Op)
    requires SaneWorld(world)
    ensures Sane(op, world(n, op))
  {
  }

  lemma {:induction false} LegalSnoc(items: seq<Item>, before: seq<Report>, r: Report, n: nat, severed: bool)
    requires 0 < n <= |items| && Legal(items[..n - 1], before)
    requires severed <==> Fails(before)
    requires if severed then r == Report(-ECANCELED, Nothing) else Sane(items[n - 1].op, r)
    ensures Legal(items[..n], before + [r])
    ensures (severed || r.res < 0) <==> Fails(before + [r])
  {
    var rs := before + [r];
    assert forall i :: 0 <= i < n - 1 ==> rs[i] == before[i] && items[..n][i] == items[..n - 1][i];
    assert rs[n - 1] == r;
    if severed {
      var i :| 0 <= i < |before| && before[i].res < 0;
      assert rs[i].res < 0;
    }
  }

  /**
    Flushing plays a legal round: each run in order, with what the kernel said of each operation up to the first
    failure, and cancelled behind that and no further.
  */
  lemma {:induction false} FlushIsLegal(runs: seq<Run>, world: World, calls: nat) returns (rss: seq<seq<Report>>)
    requires SaneWorld(world)
    ensures LegalAll(runs, rss) && GenuineAll(runs, rss, world, calls)
    ensures var f := FlushTo(Flat(runs), |Flat(runs)|, world, calls);
            !f.severed && f.reports == Flatten(rss) && f.calls == calls + MadeAll(rss)
    decreases |runs|
  {
    hide Legal, FlatRun, Genuine, Made;
    if runs == [] {
      rss := [];
    } else {
      var front, run := runs[..|runs| - 1], runs[|runs| - 1];
      var before := FlushIsLegal(front, world, calls);
      var rs := FlushRun(Flat(front), run, |run.items|, world, calls);
      assert run.items[..|run.items|] == run.items;
      rss := before + [rs];
      assert rss[..|runs| - 1] == before;
      FlattenSnoc(before, rs);
    }
  }

  lemma {:induction false} FlattenSnoc<T>(ss: seq<seq<T>>, s: seq<T>)
    ensures Flatten(ss + [s]) == Flatten(ss) + s
    decreases |ss|
  {
    if ss == [] {
      assert ([] + [s])[1..] == [];
      Empties(s);
    } else {
      assert (ss + [s])[1..] == ss[1..] + [s];
      FlattenSnoc(ss[1..], s);
      AppendAppend(ss[0], Flatten(ss[1..]), s);
    }
  }

  // ----- draining

  function Zip(staged: seq<Staged>, reports: seq<Report>): (r: seq<Handed>)
    requires |staged| == |reports|
  {
    seq(|staged|, i requires 0 <= i < |staged| => Handed(staged[i].item, staged[i].key, reports[i]))
  }

  predicate KeysIn(hs: seq<Handed>, n: nat) {
    forall i :: 0 <= i < |hs| ==> hs[i].key < n
  }

  /** Each completion handed to its callback, in order. */
  function FireAll(hs: seq<Handed>, n: nat, reqs: seq<Req>): (r: (seq<Req>, seq<Run>))
    requires n <= |hs| && KeysIn(hs, |reqs|)
    ensures |r.0| == |reqs|
  {
    if n == 0 then (reqs, [])
    else
      var (before, staged) := FireAll(hs, n - 1, reqs);
      var h := hs[n - 1];
      var (st, more) := Fire(h.item, h.report, h.key, before[h.key]);
      (before[h.key := st], staged + more)
  }

  lemma {:induction false} FirePrefix(a: seq<Handed>, b: seq<Handed>, n: nat, reqs: seq<Req>)
    requires n <= |a| && KeysIn(a + b, |reqs|) && KeysIn(a, |reqs|)
    ensures FireAll(a + b, n, reqs) == FireAll(a, n, reqs)
  {
    if n > 0 {
      FirePrefix(a, b, n - 1, reqs);
    }
  }

  /** One run's completions, behind others. */
  lemma {:induction false} FireRunFlat(a: seq<Handed>, run: Run, rs: seq<Report>, n: nat, reqs: seq<Req>)
    requires n <= |rs| == |run.items| && run.key < |reqs| && KeysIn(a, |reqs|)
    ensures var hs := a + Zip(FlatRun(run, n), rs[..n]);
            && KeysIn(hs, |reqs|)
            && var (before, staged) := FireAll(a, |a|, reqs);
               var (st, more) := FireRun(run, rs, n, before[run.key]);
               FireAll(hs, |a| + n, reqs) == (before[run.key := st], staged + more)
  {
    hide Fire, Zip, FlatRun;
    FlatKeysIn(a, run, rs, n, |reqs|);
    if n == 0 {
      NothingFires(a, run, rs, reqs);
    } else {
      FireRunFlat(a, run, rs, n - 1, reqs);
      hide FireAll, FireRun;
      FireStep(a, run, rs, n, reqs);
    }
  }

  lemma {:induction false} FlatKeysIn(a: seq<Handed>, run: Run, rs: seq<Report>, n: nat, keys: nat)
    requires n <= |rs| == |run.items| && run.key < keys && KeysIn(a, keys)
    ensures KeysIn(a + Zip(FlatRun(run, n), rs[..n]), keys)
  {
    hide FlatRun;
    FlatKeys(run, n);
  }

  lemma {:induction false} NothingFires(a: seq<Handed>, run: Run, rs: seq<Report>, reqs: seq<Req>)
    requires |rs| == |run.items| && run.key < |reqs| && KeysIn(a, |reqs|)
    ensures a + Zip(FlatRun(run, 0), rs[..0]) == a
    ensures var (before, staged) := FireAll(a, |a|, reqs);
            var (st, more) := FireRun(run, rs, 0, before[run.key]);
            (before[run.key := st], staged + more) == (before, staged)
  {
    hide FireAll;
    var (before, staged) := FireAll(a, |a|, reqs);
    assert FlatRun(run, 0) == [];
    Empties(a);
    Empties(staged);
    assert before[run.key := before[run.key]] == before;
  }

  lemma {:induction false} FlatKeys(run: Run, n: nat)
    requires n <= |run.items|
    ensures forall i :: 0 <= i < n ==> FlatRun(run, n)[i].key == run.key
  {
    if n > 0 {
      FlatKeys(run, n - 1);
    }
  }

  lemma {:induction false} ZipSnoc(a: seq<Handed>, run: Run, rs: seq<Report>, n: nat)
    requires 0 < n <= |rs| == |run.items|
    ensures a + Zip(FlatRun(run, n), rs[..n]) ==
            a + Zip(FlatRun(run, n - 1), rs[..n - 1]) + [Handed(run.items[n - 1], run.key, rs[n - 1])]
  {
    var z := Zip(FlatRun(run, n), rs[..n]);
    assert z == Zip(FlatRun(run, n - 1), rs[..n - 1]) + [Handed(run.items[n - 1], run.key, rs[n - 1])];
    AppendAppend(a, Zip(FlatRun(run, n - 1), rs[..n - 1]), [Handed(run.items[n - 1], run.key, rs[n - 1])]);
  }

  lemma {:induction false} FireStep(a: seq<Handed>, run: Run, rs: seq<Report>, n: nat, reqs: seq<Req>)
    requires 0 < n <= |rs| == |run.items| && run.key < |reqs| && KeysIn(a, |reqs|)
    requires var hs := a + Zip(FlatRun(run, n - 1), rs[..n - 1]);
             && KeysIn(hs, |reqs|)
             && var (before, staged) := FireAll(a, |a|, reqs);
                var (st, more) := FireRun(run, rs, n - 1, before[run.key]);
                FireAll(hs, |a| + n - 1, reqs) == (before[run.key := st], staged + more)
    requires KeysIn(a + Zip(FlatRun(run, n), rs[..n]), |reqs|)
    ensures var (before, staged) := FireAll(a, |a|, reqs);
            var (st, more) := FireRun(run, rs, n, before[run.key]);
            FireAll(a + Zip(FlatRun(run, n), rs[..n]), |a| + n, reqs) == (before[run.key := st], staged + more)
  {
    hide Fire, Zip, FlatRun;
    ZipSnoc(a, run, rs, n);
    var front := a + Zip(FlatRun(run, n - 1), rs[..n - 1]);
    var last := Handed(run.items[n - 1], run.key, rs[n - 1]);
    var hs := front + [last];
    assert |front| == |a| + n - 1 by { ZipLength(FlatRun(run, n - 1), rs[..n - 1]); }
    FirePrefix(front, [last], |a| + n - 1, reqs);
    var (before, staged) := FireAll(a, |a|, reqs);
    var (mid, some) := FireRun(run, rs, n - 1, before[run.key]);
    var (st, more) := Fire(last.item, last.report, last.key, mid);
    assert hs[|a| + n - 1] == last;
    assert before[run.key := mid][run.key := st] == before[run.key := st];
    AppendAppend(staged, some, more);
  }

  lemma {:induction false} ZipLength(staged: seq<Staged>, reports: seq<Report>)
    requires |staged| == |reports|
    ensures |Zip(staged, reports)| == |staged|
  {
  }

  lemma {:induction false} ZipAppend(a: seq<Staged>, ra: seq<Report>, b: seq<Staged>, rb: seq<Report>)
    requires |a| == |ra| && |b| == |rb|
    ensures Zip(a + b, ra + rb) == Zip(a, ra) + Zip(b, rb)
  {
  }

  /** Handing over completions one by one is a round. */
  lemma {:induction false} DrainIsRound(runs: seq<Run>, rss: seq<seq<Report>>, reqs: seq<Req>)
    requires |rss| == |runs| && forall i :: 0 <= i < |runs| ==> runs[i].key < |reqs| && |rss[i]| == |runs[i].items|
    ensures |Flat(runs)| == |Flatten(rss)| && KeysIn(Zip(Flat(runs), Flatten(rss)), |reqs|)
    ensures FireAll(Zip(Flat(runs), Flatten(rss)), |Flat(runs)|, reqs) == Round(runs, rss, reqs)
    decreases |runs|
  {
    hide FireRun, FlatRun, Zip;
    if runs == [] {
      NothingZips();
    } else {
      var n := |runs| - 1;
      var run, rs := runs[n], rss[n];
      DrainIsRound(runs[..n], rss[..n], reqs);
      var flat, done := Flat(runs[..n]), Flatten(rss[..n]);
      assert rss == rss[..n] + [rs];
      FlattenSnoc(rss[..n], rs);
      ZipAppend(flat, done, FlatRun(run, |rs|), rs);
      ZipLength(flat, done);
      assert rs[..|rs|] == rs;
      FireRunFlat(Zip(flat, done), run, rs, |rs|, reqs);
    }
  }

  lemma {:induction false} NothingZips()
    ensures Zip([], []) == []
  {
  }

  // ----- callbacks stage only what is nearer the end

  function Rank(cb: Callback): nat {
    match cb
    case OnTmpOpen => 3
    case OnStat => 3
    case OnStep => 2
    case OnCommitted => 2
    case OnOpen => 2
    case Ignore => 1
  }

  predicate RankedRun(run: Run, r: nat) {
    run.items != [] && forall i :: 0 <= i < |run.items| ==> Rank(run.items[i].cb) <= r
  }

  predicate Ranked(runs: seq<Run>, r: nat) {
    forall i :: 0 <= i < |runs| ==> RankedRun(runs[i], r)
  }

  lemma {:induction false} FireRanks(item: Item, report: Report, key: nat, st: Req, r: nat)
    requires Rank(item.cb) <= r + 1
    ensures Ranked(Fire(item, report, key, st).1, r)
  {
  }

  lemma {:induction false} FireRunRanks(run: Run, rs: seq<Report>, n: nat, st: Req, r: nat)
    requires n <= |rs| == |run.items| && RankedRun(run, r + 1)
    ensures Ranked(FireRun(run, rs, n, st).1, r)
  {
    hide Fire, RankedRun;
    if n > 0 {
      FireRunRanks(run, rs, n - 1, st, r);
      RankAt(run, n - 1, r + 1);
      FireRanks(run.items[n - 1], rs[n - 1], run.key, FireRun(run, rs, n - 1, st).0, r);
    }
  }

  lemma {:induction false} RankAt(run: Run, i: nat, r: nat)
    requires RankedRun(run, r) && i < |run.items|
    ensures Rank(run.items[i].cb) <= r
  {
  }

  lemma {:induction false} RoundRanks(runs: seq<Run>, rss: seq<seq<Report>>, reqs: seq<Req>, r: nat)
    requires |rss| == |runs| && forall i :: 0 <= i < |runs| ==> runs[i].key < |reqs| && |rss[i]| == |runs[i].items|
    requires Ranked(runs, r + 1)
    ensures Ranked(Round(runs, rss, reqs).1, r)
    decreases |runs|
  {
    hide FireRun, RankedRun;
    if runs != [] {
      var n := |runs| - 1;
      RoundRanks(runs[..n], rss[..n], reqs, r);
      FireRunRanks(runs[n], rss[n], |runs[n].items|, Round(runs[..n], rss[..n], reqs).0[runs[n].key], r);
    }
  }

  lemma {:induction false} RanksAreSomething(runs: seq<Run>, r: nat)
    requires Ranked(runs, r) && runs != []
    ensures r > 0 && Flat(runs) != []
  {
    var run := runs[|runs| - 1];
    assert RankedRun(run, r);
    assert Rank(run.items[0].cb) >= 1;
  }

  // ----- the reactor

  lemma {:induction false} PlaysSnoc(sys: Sys, actions: seq<Action>, a: Action)
    requires Plays(sys, actions) && Enabled(Played(sys, actions), a)
    ensures Plays(sys, actions + [a]) && Played(sys, actions + [a]) == Act(Played(sys, actions), a)
    decreases |actions|
  {
    hide Act, Enabled;
    if actions == [] {
      assert ([] + [a])[1..] == [];
    } else {
      assert (actions + [a])[1..] == actions[1..] + [a];
      PlaysSnoc(Act(sys, actions[0]), actions[1..], a);
    }
  }

  lemma {:induction false} PlaysNothing(sys: Sys)
    ensures Plays(sys, []) && Played(sys, []) == sys
  {
  }

  lemma {:induction false} PostedZip(staged: seq<Staged>, i: nat, reports: seq<Report>, report: Report)
    requires i < |staged| && |reports| == i
    ensures Zip(staged[..i], reports) + [Handed(staged[i].item, staged[i].key, report)] ==
            Zip(staged[..i + 1], reports + [report])
  {
  }

  lemma {:induction false} FrontOf(hs: seq<Handed>, n: nat, h: Handed, rest: seq<Handed>)
    requires n <= |hs| && [h] + rest == hs[n..]
    ensures n < |hs| && h == hs[n] && rest == hs[n + 1..]
  {
    assert ([h] + rest)[0] == h;
    assert ([h] + rest)[1..] == rest;
    assert hs[n..][1..] == hs[n + 1..];
  }

  /** A flush and a drain are one round of the requests. */
  lemma {:induction false} Drained(runs: seq<Run>, rss: seq<seq<Report>>, reqs: seq<Req>, puts: seq<Put>,
                                   stats: seq<Stat>, rank: nat)
    requires LegalAll(runs, rss) && runs != [] && Ranked(runs, rank)
    requires forall i :: 0 <= i < |runs| ==> runs[i].key < |reqs|
    ensures rank > 0 && |Flat(runs)| == |Flatten(rss)| && KeysIn(Zip(Flat(runs), Flatten(rss)), |reqs|)
    ensures Enabled(Sys(reqs, runs, puts, stats), RunRound(rss))
    ensures var (after, staged) := FireAll(Zip(Flat(runs), Flatten(rss)), |Flat(runs)|, reqs);
            && Act(Sys(reqs, runs, puts, stats), RunRound(rss)) == Sys(after, staged, puts, stats)
            && Ranked(staged, rank - 1) && |after| == |reqs| && forall i :: 0 <= i < |staged| ==> staged[i].key < |reqs|
  {
    hide Legal, Ranked, Round, FireAll, Flat, Zip;
    LegalLengths(runs, rss);
    RanksAreSomething(runs, rank);
    DrainIsRound(runs, rss, reqs);
    RoundRanks(runs, rss, reqs, rank - 1);
    RoundKeys(runs, rss, reqs);
  }

  lemma {:induction false} RankedMore(runs: seq<Run>, r: nat)
    requires Ranked(runs, r) && r <= 3
    ensures Ranked(runs, 3)
  {
    assert forall i :: 0 <= i < |runs| ==> RankedRun(runs[i], r);
  }

  /** The requests, what is staged for them, and the operations in flight. */
  class Reactor {
    const core: Core
    var reqs: seq<Req>
    var staging: seq<Staged>
    var calls: nat
    ghost var runs: seq<Run>
    ghost var puts: seq<Put>
    ghost var stats: seq<Stat>

    ghost function Value(): Sys
      reads this
    {
      Sys(reqs, runs, puts, stats)
    }

    /** Nothing is in flight, what is staged is whole runs for requests that exist, and every put is on its way. */
    ghost predicate Valid()
      reads this, core
    {
      && core.Valid() && core.cq == [] && staging == Flat(runs) && Ranked(runs, 3) && Inv(Value())
    }

    constructor ()
      ensures Valid() && Value() == IDLE && fresh(core)
    {
      core := new Core();
      reqs, staging, calls, runs, puts, stats := [], [], 0, [], [], [];
    }

    method Stage(run: Run)
      requires staging == Flat(runs)
      modifies this`staging, this`runs
      ensures staging == Flat(runs) && runs == old(runs) + [run]
    {
      var i := 0;
      ghost var before := staging;
      Empties(before);
      while i < |run.items|
        invariant i <= |run.items| && staging == before + FlatRun(run, i)
        invariant runs == old(runs)
      {
        AppendAppend(before, FlatRun(run, i), [Staged(run.items[i], run.key, i + 1 < |run.items|)]);
        staging := staging + [Staged(run.items[i], run.key, i + 1 < |run.items|)];
        i := i + 1;
      }
      assert (runs + [run])[..|runs|] == runs;
      runs := runs + [run];
    }

    /** A durable put: open a temporary file, and let its callback stage the rest. */
    method BeginPut(dir: int, tmp: string, fin: string, body: bytes) returns (key: nat)
      requires Valid()
      modifies this
      ensures Valid() && Value() == Act(old(Value()), Action.BeginPut(dir, tmp, fin, body)) && key == |old(reqs)|
    {
      key := |reqs|;
      assert RankedRun(One(key, OpenAt(dir, tmp, true), OnTmpOpen), 3);
      hide Partitioned, Queued, RankedRun, Inv;
      ActKeeps(Value(), Action.BeginPut(dir, tmp, fin, body));
      reqs := reqs + [NewReq(dir, tmp, fin, body)];
      Stage(One(key, OpenAt(dir, tmp, true), OnTmpOpen));
      puts := puts + [Put(key, dir, tmp, fin, body)];
    }

    /** Look a name up, and open it unless it is a directory. */
    method BeginStat(dir: int, name: string) returns (key: nat)
      requires Valid()
      modifies this
      ensures Valid() && Value() == Act(old(Value()), Action.BeginStat(dir, name)) && key == |old(reqs)|
    {
      key := |reqs|;
      assert RankedRun(One(key, StatIsDir(dir, name), OnStat), 3);
      hide Partitioned, Queued, RankedRun, Inv;
      ActKeeps(Value(), Action.BeginStat(dir, name));
      reqs := reqs + [NewReq(dir, "", name, [])];
      Stage(One(key, StatIsDir(dir, name), OnStat));
      stats := stats + [Stat(key, dir, name)];
    }

    /** Execute everything staged, in order, and queue the completions. */
    method Flush(world: World)
      requires Valid()
      modifies this`staging, this`calls, core
      ensures core.Valid() && staging == []
      ensures var f := FlushTo(old(staging), |old(staging)|, world, old(calls));
              core.Pending() == Zip(old(staging), f.reports) && calls == f.calls
    {
      hide Partitioned, Queued;
      var taken := staging;
      staging := [];
      var severed, i := false, 0;
      ghost var reports := [];
      assert core.Pending() == Zip(taken[..0], []);
      while i < |taken|
        invariant i <= |taken| && core.Valid() && staging == []
        invariant FlushTo(taken, i, world, old(calls)) == Flushing(reports, severed, calls)
        invariant core.Pending() == Zip(taken[..i], reports)
      {
        var s := taken[i];
        var report := Report(-ECANCELED, Nothing);
        if !severed {
          report := world(calls, s.item.op);
          calls := calls + 1;
        }
        if report.res < 0 {
          severed := true;
        }
        core.Post(s.key, s.item, report);
        PostedZip(taken, i, reports, report);
        reports := reports + [report];
        if !s.linkNext {
          severed := false;
        }
        i := i + 1;
      }
      assert taken[..i] == taken;
    }

    /** Hand every completion to its callback, with its own request and the staging buffer. */
    method Drain()
      requires core.Valid() && staging == [] && KeysIn(core.Pending(), |reqs|)
      modifies this`reqs, this`staging, this`runs, core
      ensures core.Valid() && core.cq == [] && staging == Flat(runs)
      ensures var hs := old(core.Pending()); (reqs, runs) == FireAll(hs, |hs|, old(reqs))
    {
      hide Partitioned, Queued, Fire, Flat, HandedBy;
      ghost var hs, was := core.Pending(), reqs;
      runs := [];
      ghost var n := 0;
      assert hs[0..] == hs;
      assert Flat([]) == [] by { NothingStaged(); }
      while core.cq != []
        invariant n <= |hs| && core.Valid() && core.Pending() == hs[n..] && staging == Flat(runs)
        invariant |reqs| == |was| && (reqs, runs) == FireAll(hs, n, was)
        decreases |core.cq|
      {
        var h := core.Next();
        assert h == hs[n] && core.Pending() == hs[n + 1..] by { FrontOf(hs, n, h, core.Pending()); }
        var (st, more) := Fire(h.item, h.report, h.key, reqs[h.key]);
        reqs := reqs[h.key := st];
        n := n + 1;
        FlatAppend(runs, more);
        staging := staging + Flat(more);
        runs := runs + more;
      }
      assert core.Pending() == [] by { NothingQueued(core.slots); }
    }

    /**
      Flush and drain until nothing completes: a run of rounds, that ends with every slot free and every put
      settled.
    */
    method RunUntilIdle(world: World) returns (ghost actions: seq<Action>)
      requires Valid() && SaneWorld(world)
      modifies this, core
      ensures Valid() && runs == [] && forall s :: 0 <= s < |core.slots| ==> !core.slots[s].used
      ensures Plays(old(Value()), actions) && Played(old(Value()), actions) == Value()
      ensures forall i :: 0 <= i < |puts| ==> puts[i].key < |reqs| && Settled(puts[i], reqs[puts[i].key])
      ensures forall i :: 0 <= i < |stats| ==> stats[i].key < |reqs| && Found(stats[i], reqs[stats[i].key])
    {
      hide Act, Plays, Played, Enabled, Partitioned, Queued, SaneWorld, Flat, FlushTo, Zip, LegalAll, FireAll, Ranked,
           HandedBy, Inv, Settled, Found;
      actions := [];
      ghost var rank: nat := 3;
      PlaysNothing(Value());
      while true
        invariant rank <= 3 && Valid() && Ranked(runs, rank)
        invariant Plays(old(Value()), actions) && Played(old(Value()), actions) == Value()
        decreases rank
      {
        ghost var rss := FlushIsLegal(runs, world, calls);
        ghost var f := FlushTo(staging, |staging|, world, calls);
        Flush(world);
        if core.cq == [] {
          NoneQueued(core.slots, core.cq, Flat(runs), f.reports);
          NoRunsLeft(runs, rank);
          AllFree(core.slots, core.cq);
          AllSettled(Value());
          break;
        }
        SomeRuns(runs, f.reports, core.slots, core.cq);
        KeysOf(Value());
        Drained(runs, rss, reqs, puts, stats, rank);
        ZipLength(Flat(runs), f.reports);
        PlaysSnoc(old(Value()), actions, RunRound(rss));
        RoundKeeps(Value(), rss);
        Drain();
        actions := actions + [RunRound(rss)];
        rank := rank - 1;
        assert Ranked(runs, rank);
        RankedMore(runs, rank);
      }
    }
  }

  lemma {:induction false} KeysOf(sys: Sys)
    requires Inv(sys)
    ensures forall i :: 0 <= i < |sys.staged| ==> sys.staged[i].key < |sys.reqs|
  {
  }

  lemma {:induction false} AllSettled(sys: Sys)
    requires Inv(sys) && sys.staged == []
    ensures forall i :: 0 <= i < |sys.puts| ==>
              sys.puts[i].key < |sys.reqs| && Settled(sys.puts[i], sys.reqs[sys.puts[i].key])
    ensures forall i :: 0 <= i < |sys.stats| ==>
              sys.stats[i].key < |sys.reqs| && Found(sys.stats[i], sys.reqs[sys.stats[i].key])
  {
    hide Settled, PutAt, StatAt, Found;
    forall i | 0 <= i < |sys.stats|
      ensures sys.stats[i].key < |sys.reqs| && Found(sys.stats[i], sys.reqs[sys.stats[i].key])
    {
      MineNew(sys.staged, sys.stats[i].key);
      StatAnswersOnce(sys.stats[i], sys.reqs[sys.stats[i].key], []);
    }
    forall i | 0 <= i < |sys.puts|
      ensures sys.puts[i].key < |sys.reqs| && Settled(sys.puts[i], sys.reqs[sys.puts[i].key])
    {
      MineNew(sys.staged, sys.puts[i].key);
      IdlePutIsSettled(sys.puts[i], sys.reqs[sys.puts[i].key]);
    }
  }

  lemma {:induction false} NoneQueued(slots: seq<Slot>, cq: seq<Completion>, staged: seq<Staged>, reports: seq<Report>)
    requires cq == [] && |staged| == |reports| && HandedBy(slots, cq) == Zip(staged, reports)
    ensures staged == []
  {
    assert |Zip(staged, reports)| == |staged|;
  }

  lemma {:induction false} NoRunsLeft(runs: seq<Run>, r: nat)
    requires Ranked(runs, r) && Flat(runs) == []
    ensures runs == []
  {
    hide Ranked, Flat;
    if runs != [] {
      RanksAreSomething(runs, r);
    }
  }

  lemma {:induction false} AllFree(slots: seq<Slot>, cq: seq<Completion>)
    requires Queued(slots, cq) && cq == []
    ensures forall s :: 0 <= s < |slots| ==> !slots[s].used
  {
  }

  lemma {:induction false} SomeRuns(runs: seq<Run>, reports: seq<Report>, slots: seq<Slot>, cq: seq<Completion>)
    requires Queued(slots, cq)
    requires cq != [] && |Flat(runs)| == |reports| && HandedBy(slots, cq) == Zip(Flat(runs), reports)
    ensures runs != []
  {
    assert |HandedBy(slots, cq)| == |cq|;
    assert Flat([]) == [];
  }
}
