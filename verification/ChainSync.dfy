/**
  Chain synchronization without reorganizations: one `Sync` call confirms watched transactions that are
  already buried, then reports up to twenty new blocks, each with the watched transactions it contains.
  Any fetch may fail; a failed fetch skips a buried transaction or its block, and aborts a forward block.
 */
module ChainSync {
  import opened Wrappers
  import SortedKeys
  import opened Sequences

  const MAX_FORWARD_BLOCKS_PER_SYNC: nat := 20

  type Txid = nat
  type Outpoint = nat

  /** The blocks, present and to come: they only ever get appended. */
  datatype Chain = Chain(heightOf: Txid -> Option<nat>, pos: Txid -> nat, spender: Outpoint -> Option<Txid>)

  /**
    What one call meets: the tip it is told, the tip the server has reached by its k-th fetch, which
    fetches fail, and what the node asks to watch, queried once before the catch-up and once per block.
    A relevant transaction is paired with whether the node already knows its block.
   */
  datatype World = World(chain: Chain, tip: nat, tipAt: nat -> nat, fails: nat -> bool,
                         relevant: nat -> seq<(Txid, bool)>, registered: nat -> seq<Txid>,
                         outputs: nat -> seq<Outpoint>)

  predicate At(c: Chain, t: Txid, h: nat) {
    c.heightOf(t) == Some(h)
  }

  function TipSeen(w: World, k: nat): nat {
    if w.tipAt(k) < w.tip then w.tip else w.tipAt(k)
  }

  /** The confirmation height the k-th fetch reports; none for an unconfirmed one or a failed fetch. */
  function Status(w: World, k: nat, t: Txid): Option<nat> {
    var h := w.chain.heightOf(t);
    if w.fails(k) || h.None? || h.value > TipSeen(w, k) then None else h
  }

  predicate Clean(w: World, from: nat, to: nat) {
    forall k :: from <= k < to ==> !w.fails(k)
  }

  // ---------------------------------------------------------------- insertion-ordered sets

  function Add(s: seq<Txid>, t: Txid): seq<Txid> {
    if t in s then s else s + [t]
  }

  method Union(s: seq<Txid>, ts: seq<Txid>) returns (r: seq<Txid>)
    requires NoRepeats(s)
    ensures NoRepeats(r) && forall t :: t in r <==> t in s || t in ts
  {
    r := s;
    for i := 0 to |ts|
      invariant NoRepeats(r) && forall t :: t in r <==> t in s || t in ts[..i]
    {
      assert ts[..i + 1] == ts[..i] + [ts[i]];
      r := Add(r, ts[i]);
    }
    assert ts[..|ts|] == ts;
  }

  // ---------------------------------------------------------------- buried transactions

  datatype Group = Group(height: nat, txids: seq<Txid>)

  /** The transactions whose fetched status is the given height, in the order they are watched. */
  function Having(watched: seq<Txid>, status: seq<Option<nat>>, h: nat): seq<Txid>
    requires |watched| == |status|
  {
    if watched == [] then []
    else
      var n := |watched| - 1;
      Having(watched[..n], status[..n], h) + if status[n] == Some(h) then [watched[n]] else []
  }

  predicate LowestFirst(gs: seq<Group>) {
    forall i, j :: 0 <= i < j < |gs| ==> gs[i].height < gs[j].height
  }

  predicate Grouped(gs: seq<Group>, t: Txid, h: nat) {
    exists i :: 0 <= i < |gs| && gs[i].height == h && t in gs[i].txids
  }

  /** Groups the transactions at or below the best height by height, lowest first. */
  method PlanBuriedConfirmations(watched: seq<Txid>, status: seq<Option<nat>>, bestHeight: nat)
    returns (groups: seq<Group>)
    requires |watched| == |status|
    ensures LowestFirst(groups)
    ensures forall g :: g in groups ==> g.height <= bestHeight && g.txids == Having(watched, status, g.height) != []
    ensures forall i :: 0 <= i < |watched| && status[i].Some? && status[i].value <= bestHeight ==>
              Grouped(groups, watched[i], status[i].value)
  {
    var byHeight: map<nat, seq<Txid>> := map[];
    for i := 0 to |watched|
      invariant forall h :: h in byHeight ==> h <= bestHeight && byHeight[h] == Having(watched[..i], status[..i], h) != []
      invariant forall h: nat :: h !in byHeight && h <= bestHeight ==> Having(watched[..i], status[..i], h) == []
    {
      assert watched[..i + 1][..i] == watched[..i] && status[..i + 1][..i] == status[..i];
      if status[i].Some? && status[i].value <= bestHeight {
        var h := status[i].value;
        if h in byHeight {
          byHeight := byHeight[h := byHeight[h] + [watched[i]]];
        } else {
          byHeight := byHeight[h := [watched[i]]];
        }
      }
    }
    assert watched[..|watched|] == watched && status[..|status|] == status;
    var sorted := SortedKeys.Sorted(byHeight.Keys);
    assert forall i :: 0 <= i < |sorted| ==> sorted[i] in sorted;
    var keys: seq<nat> := sorted;
    groups := seq(|keys|, i requires 0 <= i < |keys| && keys[i] in byHeight => Group(keys[i], byHeight[keys[i]]));
    forall i | 0 <= i < |watched| && status[i].Some? && status[i].value <= bestHeight
      ensures Grouped(groups, watched[i], status[i].value)
    {
      HavingMember(watched, status, i);
      var j :| 0 <= j < |keys| && keys[j] == status[i].value;
      assert groups[j].height == status[i].value && watched[i] in groups[j].txids;
    }
  }

  lemma {:induction false} HavingMember(watched: seq<Txid>, status: seq<Option<nat>>, i: nat)
    requires i < |watched| == |status| && status[i].Some?
    ensures watched[i] in Having(watched, status, status[i].value)
    decreases |watched|
  {
    var n := |watched| - 1;
    if i < n {
      HavingMember(watched[..n], status[..n], i);
    }
  }

  lemma {:induction false} HavingFrom(watched: seq<Txid>, status: seq<Option<nat>>, h: nat, t: Txid) returns (i: nat)
    requires |watched| == |status| && t in Having(watched, status, h)
    ensures i < |watched| && watched[i] == t && status[i] == Some(h)
    decreases |watched|
  {
    i := |watched| - 1;
    if t in Having(watched[..i], status[..i], h) {
      i := HavingFrom(watched[..i], status[..i], h, t);
    }
  }

  lemma {:induction false} HavingOnce(watched: seq<Txid>, status: seq<Option<nat>>, h: nat)
    requires |watched| == |status| && NoRepeats(watched)
    ensures NoRepeats(Having(watched, status, h))
    decreases |watched|
  {
    if watched != [] {
      var n := |watched| - 1;
      var front := Having(watched[..n], status[..n], h);
      HavingOnce(watched[..n], status[..n], h);
      forall i | 0 <= i < |front|
        ensures front[i] != watched[n]
      {
        var k := HavingFrom(watched[..n], status[..n], h, front[i]);
      }
    }
  }

  // ---------------------------------------------------------------- order within a block

  predicate ByPosition(c: Chain, ts: seq<Txid>) {
    forall i, j :: 0 <= i < j < |ts| ==> c.pos(ts[i]) <= c.pos(ts[j])
  }

  function Insert(c: Chain, t: Txid, ts: seq<Txid>): (r: seq<Txid>)
    requires ByPosition(c, ts) && NoRepeats(ts) && t !in ts
    ensures ByPosition(c, r) && NoRepeats(r) && forall x :: x in r <==> x in ts || x == t
    decreases |ts|
  {
    if ts == [] || c.pos(ts[|ts| - 1]) <= c.pos(t) then ts + [t]
    else
      var n := |ts| - 1;
      var r := Insert(c, t, ts[..n]);
      assert ts == ts[..n] + [ts[n]];
      assert forall i :: 0 <= i < |r| ==> r[i] in r;
      r + [ts[n]]
  }

  function SortByPosition(c: Chain, ts: seq<Txid>): (r: seq<Txid>)
    requires NoRepeats(ts)
    ensures forall i, j :: 0 <= i < j < |r| ==> c.pos(r[i]) <= c.pos(r[j])
    ensures ByPosition(c, r) && NoRepeats(r) && forall x :: x in r <==> x in ts
  {
    if ts == [] then []
    else
      var n := |ts| - 1;
      assert ts == ts[..n] + [ts[n]];
      Insert(c, ts[n], SortByPosition(c, ts[..n]))
  }

  // ---------------------------------------------------------------- notifications

  datatype Note = Confirmed(height: nat, txs: seq<Txid>) | BestBlock(height: nat)

  /** The node: the channel manager and the chain monitor, which always hear the same. */
  class Node {
    var best: nat
    var notes: seq<Note>

    method TransactionsConfirmed(txs: seq<Txid>, height: nat)
      modifies this
      ensures best == old(best) && notes == old(notes) + [Confirmed(height, txs)]
    {
      notes := notes + [Confirmed(height, txs)];
    }

    method BestBlockUpdated(height: nat)
      modifies this
      ensures best == height && notes == old(notes) + [BestBlock(height)]
    {
      best, notes := height, notes + [BestBlock(height)];
    }
  }

  /** A confirmation names each transaction once, at its own height, in block order. */
  predicate Truthful(c: Chain, n: Note) {
    n.Confirmed? ==> NoRepeats(n.txs) && ByPosition(c, n.txs) && forall t :: t in n.txs ==> At(c, t, n.height)
  }

  predicate Reported(notes: seq<Note>, t: Txid, h: nat) {
    exists i :: 0 <= i < |notes| && notes[i].Confirmed? && notes[i].height == h && t in notes[i].txs
  }

  /**
    The notes take the best block from `b` to `b'` one block at a time, and confirm nothing beyond the
    block that is about to become the best.
   */
  predicate InOrder(b: nat, notes: seq<Note>, b': nat)
    decreases |notes|
  {
    if notes == [] then b == b'
    else
      var init, n := notes[..|notes| - 1], notes[|notes| - 1];
      match n
      case Confirmed(h, _) => h <= b' + 1 && InOrder(b, init, b')
      case BestBlock(h) => h == b' && b < b' && InOrder(b, init, b' - 1)
  }

  lemma InOrderSnoc(b: nat, notes: seq<Note>, b': nat, n: Note)
    requires InOrder(b, notes, b') && b <= b'
    requires match n case Confirmed(h, _) => h <= b' + 1 case BestBlock(h) => h == b' + 1
    ensures InOrder(b, notes + [n], if n.BestBlock? then b' + 1 else b')
  {
    assert (notes + [n])[..|notes|] == notes;
  }

  /** `below` bounds all heights, and a confirmation is above every note before it. */
  predicate Rising(notes: seq<Note>, below: nat) {
    && (forall i :: 0 <= i < |notes| ==> notes[i].height < below)
    && forall i, j :: 0 <= i < j < |notes| && notes[j].Confirmed? ==> notes[i].height < notes[j].height
  }

  lemma RisingSnoc(notes: seq<Note>, below: nat, n: Note, above: nat)
    requires Rising(notes, below) && below <= above && n.height < above
    requires n.Confirmed? ==> below <= n.height
    ensures Rising(notes + [n], above)
  {
    assert forall i :: 0 <= i < |notes| ==> (notes + [n])[i] == notes[i];
  }

  lemma ReportedSnoc(notes: seq<Note>, n: Note)
    ensures forall t, h: nat :: Reported(notes, t, h) ==> Reported(notes + [n], t, h)
    ensures n.Confirmed? ==> forall t :: t in n.txs ==> Reported(notes + [n], t, n.height)
  {
    var more := notes + [n];
    forall t, h: nat | Reported(notes, t, h)
      ensures Reported(more, t, h)
    {
      var i :| 0 <= i < |notes| && notes[i].Confirmed? && notes[i].height == h && t in notes[i].txs;
      assert more[i] == notes[i];
    }
    assert more[|notes|] == n;
  }

  // ---------------------------------------------------------------- catch-up

  function Ids(rel: seq<(Txid, bool)>): (r: seq<Txid>)
  {
    seq(|rel|, i requires 0 <= i < |rel| => rel[i].0)
  }

  function Unconfirmed(rel: seq<(Txid, bool)>): seq<Txid> {
    if rel == [] then []
    else (if rel[0].1 then [] else [rel[0].0]) + Unconfirmed(rel[1..])
  }

  lemma {:induction false} UnconfirmedExactly(rel: seq<(Txid, bool)>, t: Txid)
    ensures t in Unconfirmed(rel) <==> (t, false) in rel
    decreases |rel|
  {
    if rel != [] {
      UnconfirmedExactly(rel[1..], t);
      assert (t, false) in rel <==> rel[0] == (t, false) || (t, false) in rel[1..];
    }
  }

  /** Watched when the call starts: registered, or relevant with its block still unknown. */
  predicate Watched(w: World, best: nat, t: Txid) {
    t in Unconfirmed(w.relevant(best)) || t in w.registered(best)
  }

  predicate SpendsAt(w: World, h: nat, op: Outpoint, t: Txid) {
    w.chain.spender(op) == Some(t) && At(w.chain, t, h)
  }

  /** Looked for in block `h`: relevant, registered, or the spender of a registered output. */
  predicate Active(w: World, h: nat, t: Txid) {
    || t in Ids(w.relevant(h)) || t in w.registered(h)
    || exists i :: 0 <= i < |w.outputs(h)| && SpendsAt(w, h, w.outputs(h)[i], t)
  }

  /** Where a call that starts at `best` looks for a transaction confirmed at `h`; outputs only count ahead of it. */
  predicate Sought(w: World, best: nat, h: nat, t: Txid) {
    if h <= best then Watched(w, best, t) else Active(w, h, t)
  }

  /** A confirmation is truthful and names only what the call looks for. */
  predicate Founded(w: World, best: nat, n: Note) {
    Truthful(w.chain, n) && (n.Confirmed? ==> forall t :: t in n.txs ==> Sought(w, best, n.height, t))
  }

  predicate AllFounded(w: World, best: nat, notes: seq<Note>) {
    forall i :: 0 <= i < |notes| ==> Founded(w, best, notes[i])
  }

  /** Everything watched from the start and buried by now has been reported at its own height. */
  ghost predicate Complete(w: World, best: nat, said: seq<Note>) {
    forall t, h: nat :: Watched(w, best, t) && h <= best && At(w.chain, t, h) ==> Reported(said, t, h)
  }

  method FetchRawTxs(w: World, txids: seq<Txid>, k0: nat) returns (ok: bool, k: nat)
    ensures k >= k0 && (ok <==> Clean(w, k0, k))
  {
    k := k0;
    for i := 0 to |txids|
      invariant k >= k0 && Clean(w, k0, k)
    {
      k := k + 1;
      if w.fails(k - 1) {
        return false, k;
      }
      k := k + 1;
      if w.fails(k - 1) {
        return false, k;
      }
    }
    return true, k;
  }

  /** The header, then every transaction and its proof; any failure gives up the whole height. */
  method ConfirmGroup(w: World, node: Node, g: Group, k0: nat) returns (ok: bool, k: nat, ghost n: Note)
    requires NoRepeats(g.txids) && forall t :: t in g.txids ==> At(w.chain, t, g.height)
    modifies node
    ensures k >= k0 && (ok <==> Clean(w, k0, k)) && node.best == old(node.best)
    ensures node.notes == if ok then old(node.notes) + [n] else old(node.notes)
    ensures n.Confirmed? && n.height == g.height && Truthful(w.chain, n) && forall t :: t in n.txs <==> t in g.txids
  {
    var txdata := SortByPosition(w.chain, g.txids);
    n := Confirmed(g.height, txdata);
    k := k0 + 1;
    if w.fails(k0) {
      return false, k, n;
    }
    ok, k := FetchRawTxs(w, g.txids, k);
    if ok {
      node.TransactionsConfirmed(txdata, g.height);
    }
  }

  function Statuses(w: World, watched: seq<Txid>, k0: nat): seq<Option<nat>> {
    seq(|watched|, i requires 0 <= i < |watched| => Status(w, k0 + i, watched[i]))
  }

  predicate Plausible(w: World, best: nat, groups: seq<Group>) {
    forall i :: 0 <= i < |groups| ==>
      && groups[i].height <= best && NoRepeats(groups[i].txids)
      && forall t :: t in groups[i].txids ==> At(w.chain, t, groups[i].height) && Watched(w, best, t)
  }

  method PlanCatchUp(w: World, best: nat, k0: nat) returns (groups: seq<Group>, k: nat)
    ensures k >= k0 && LowestFirst(groups)
    ensures Plausible(w, best, groups)
    ensures Clean(w, k0, k) && best <= w.tip ==>
              forall t, h: nat :: Watched(w, best, t) && h <= best && At(w.chain, t, h) ==> Grouped(groups, t, h)
  {
    var watched := Union([], Unconfirmed(w.relevant(best)));
    watched := Union(watched, w.registered(best));
    var status := Statuses(w, watched, k0);
    k := k0 + |watched|;
    groups := PlanBuriedConfirmations(watched, status, best);
    GroupsPlausible(w, best, k0, watched, groups);
    if Clean(w, k0, k) && best <= w.tip {
      forall t, h: nat | t in watched && h <= best && At(w.chain, t, h)
        ensures Grouped(groups, t, h)
      {
        var i := StatusKnown(w, best, k0, watched, t, h);
      }
    }
  }

  lemma StatusKnown(w: World, best: nat, k0: nat, watched: seq<Txid>, t: Txid, h: nat) returns (i: nat)
    requires Clean(w, k0, k0 + |watched|) && t in watched && h <= best <= w.tip && At(w.chain, t, h)
    ensures i < |watched| && watched[i] == t && Statuses(w, watched, k0)[i] == Some(h)
  {
    i :| 0 <= i < |watched| && watched[i] == t;
  }

  // A fetched status is the truth, so each group holds transactions of its own height.
  lemma GroupsPlausible(w: World, best: nat, k0: nat, watched: seq<Txid>, groups: seq<Group>)
    requires NoRepeats(watched) && forall t :: t in watched ==> Watched(w, best, t)
    requires forall g :: g in groups ==> g.height <= best && g.txids == Having(watched, Statuses(w, watched, k0), g.height)
    ensures Plausible(w, best, groups)
  {
    forall i | 0 <= i < |groups|
      ensures NoRepeats(groups[i].txids)
      ensures forall t :: t in groups[i].txids ==> At(w.chain, t, groups[i].height) && Watched(w, best, t)
    {
      assert groups[i] in groups;
      HavingOnce(watched, Statuses(w, watched, k0), groups[i].height);
      forall t | t in groups[i].txids
        ensures At(w.chain, t, groups[i].height) && Watched(w, best, t)
      {
        var j := HavingFrom(watched, Statuses(w, watched, k0), groups[i].height, t);
      }
    }
  }

  ghost predicate GroupsReported(groups: seq<Group>, said: seq<Note>) {
    forall j, t :: 0 <= j < |groups| && t in groups[j].txids ==> Reported(said, t, groups[j].height)
  }

  ghost predicate Caught(w: World, best: nat, said: seq<Note>, below: nat) {
    InOrder(best, said, best) && AllFounded(w, best, said) && Rising(said, below) && below <= best + 1
  }

  lemma OneMoreGroup(w: World, best: nat, said: seq<Note>, below: nat, n: Note)
    requires Caught(w, best, said, below) && n.Confirmed? && Founded(w, best, n) && below <= n.height <= best
    ensures Caught(w, best, said + [n], n.height + 1)
  {
    InOrderSnoc(best, said, best, n);
    RisingSnoc(said, below, n, n.height + 1);
  }

  lemma OneMoreReported(groups: seq<Group>, i: nat, said: seq<Note>, n: Note)
    requires i < |groups| && n.Confirmed? && n.height == groups[i].height
    requires forall t :: t in groups[i].txids ==> t in n.txs
    ensures GroupsReported(groups[..i], said) ==> GroupsReported(groups[..i + 1], said + [n])
  {
    ReportedSnoc(said, n);
    assert groups[..i + 1] == groups[..i] + [groups[i]];
  }

  /** Confirms what is buried at or below the best block, lowest height first. */
  method CatchUp(w: World, node: Node, k0: nat) returns (k: nat, ghost said: seq<Note>)
    modifies node
    ensures k >= k0 && node.best == old(node.best) && node.notes == old(node.notes) + said
    ensures Caught(w, node.best, said, node.best + 1)
    ensures Clean(w, k0, k) && node.best <= w.tip ==> Complete(w, node.best, said)
  {
    var best := node.best;
    var groups, k1 := PlanCatchUp(w, best, k0);
    k, said := ConfirmGroups(w, node, groups, k1);
    assert Clean(w, k0, k) ==> Clean(w, k0, k1) && Clean(w, k1, k);
  }

  method ConfirmGroups(w: World, node: Node, groups: seq<Group>, k0: nat) returns (k: nat, ghost said: seq<Note>)
    requires LowestFirst(groups) && Plausible(w, node.best, groups)
    modifies node
    ensures k >= k0 && node.best == old(node.best) && node.notes == old(node.notes) + said
    ensures Caught(w, node.best, said, node.best + 1)
    ensures Clean(w, k0, k) ==> GroupsReported(groups, said)
  {
    k, said := k0, [];
    ghost var below: nat := 0;
    for i := 0 to |groups|
      invariant k >= k0 && node.best == old(node.best) && node.notes == old(node.notes) + said
      invariant Caught(w, node.best, said, below)
      invariant i < |groups| ==> below <= groups[i].height
      invariant Clean(w, k0, k) ==> GroupsReported(groups[..i], said)
    {
      var g, before := groups[i], k;
      var ok;
      ghost var n;
      ok, k, n := ConfirmGroup(w, node, g, before);
      if ok {
        OneMoreGroup(w, node.best, said, below, n);
        OneMoreReported(groups, i, said, n);
        said, below := said + [n], g.height + 1;
      }
    }
    assert groups[..|groups|] == groups;
  }

  // ---------------------------------------------------------------- forward blocks

  method CollectActive(w: World, h: nat, k0: nat) returns (ok: bool, k: nat, active: seq<Txid>)
    ensures k >= k0 && (ok <==> Clean(w, k0, k))
    ensures ok ==> NoRepeats(active) && forall t :: t in active <==> Active(w, h, t)
  {
    active := Union([], Ids(w.relevant(h)));
    active := Union(active, w.registered(h));
    k := k0;
    var ops := w.outputs(h);
    for i := 0 to |ops|
      invariant k == k0 + i && Clean(w, k0, k) && NoRepeats(active)
      invariant forall t :: t in active <==> t in Ids(w.relevant(h)) || t in w.registered(h)
                                             || exists j :: 0 <= j < i && SpendsAt(w, h, ops[j], t)
    {
      k := k + 1;
      if w.fails(k - 1) {
        return false, k, active;
      }
      var t := w.chain.spender(ops[i]);
      if t.Some? && w.chain.heightOf(t.value) == Some(h) {
        active := Add(active, t.value);
      }
    }
    return true, k, active;
  }

  /** The active transactions of block `h`; any failed fetch gives up the block. */
  method ConfirmedIn(w: World, h: nat, active: seq<Txid>, k0: nat) returns (ok: bool, k: nat, txdata: seq<Txid>)
    requires h <= w.tip && NoRepeats(active)
    ensures k >= k0 && (ok <==> Clean(w, k0, k))
    ensures ok ==> NoRepeats(txdata) && forall t :: t in txdata <==> t in active && At(w.chain, t, h)
  {
    k, txdata := k0, [];
    for i := 0 to |active|
      invariant k >= k0 && Clean(w, k0, k) && NoRepeats(txdata)
      invariant forall t :: t in txdata <==> t in active[..i] && At(w.chain, t, h)
    {
      assert active[..i + 1] == active[..i] + [active[i]] && active[i] !in active[..i];
      var t := active[i];
      k := k + 1;
      if w.fails(k - 1) {
        return false, k, txdata;
      }
      if Status(w, k - 1, t) == Some(h) {
        var ok1;
        ok1, k := FetchRawTxs(w, [t], k);
        if !ok1 {
          return false, k, txdata;
        }
        txdata := txdata + [t];
      }
    }
    assert active[..|active|] == active;
    return true, k, txdata;
  }

  method ForwardBlock(w: World, h: nat, k0: nat) returns (ok: bool, k: nat, txdata: seq<Txid>)
    requires h <= w.tip
    ensures k >= k0 && (ok <==> Clean(w, k0, k))
    ensures ok ==> Truthful(w.chain, Confirmed(h, txdata)) && forall t :: t in txdata <==> Active(w, h, t) && At(w.chain, t, h)
  {
    k, txdata := k0 + 1, [];
    if w.fails(k0) {
      return false, k, txdata;
    }
    k := k0 + 2;
    if w.fails(k0 + 1) {
      return false, k, txdata;
    }
    var active;
    var k1 := k;
    ok, k, active := CollectActive(w, h, k1);
    if !ok {
      return;
    }
    ok, k, txdata := ConfirmedIn(w, h, active, k);
    if ok {
      txdata := SortByPosition(w.chain, txdata);
    }
  }

  function ForwardSyncBatchEnd(bestHeight: nat, tipHeight: nat, maxPerSync: nat): nat {
    if tipHeight < bestHeight + maxPerSync then tipHeight else bestHeight + maxPerSync
  }

  /** Every transaction looked for in a block that was passed has been reported in it. */
  ghost predicate NoneSkipped(w: World, best: nat, after: nat, said: seq<Note>) {
    forall t, h: nat :: best < h <= after && Active(w, h, t) && At(w.chain, t, h) ==> Reported(said, t, h)
  }

  /** What holds of a call's notes once they have brought the best block from `best` to `now`. */
  ghost predicate Progress(w: World, best: nat, now: nat, said: seq<Note>) {
    && best <= now && InOrder(best, said, now) && AllFounded(w, best, said) && Rising(said, now + 1)
    && NoneSkipped(w, best, now, said)
  }

  ghost predicate KeepsReports(a: seq<Note>, b: seq<Note>) {
    forall t, h: nat :: Reported(a, t, h) ==> Reported(b, t, h)
  }

  lemma TxsNoted(w: World, best: nat, now: nat, said: seq<Note>, txs: seq<Txid>)
    requires Progress(w, best, now, said) && Founded(w, best, Confirmed(now + 1, txs))
    ensures var more := said + [Confirmed(now + 1, txs)];
            && InOrder(best, more, now) && AllFounded(w, best, more) && Rising(more, now + 2)
            && KeepsReports(said, more) && forall t :: t in txs ==> Reported(more, t, now + 1)
  {
    var n := Confirmed(now + 1, txs);
    InOrderSnoc(best, said, now, n);
    RisingSnoc(said, now + 1, n, now + 2);
    ReportedSnoc(said, n);
  }

  lemma BlockNoted(w: World, best: nat, now: nat, said: seq<Note>)
    requires best <= now && InOrder(best, said, now) && AllFounded(w, best, said) && Rising(said, now + 2)
    requires NoneSkipped(w, best, now + 1, said)
    ensures Progress(w, best, now + 1, said + [BestBlock(now + 1)])
    ensures KeepsReports(said, said + [BestBlock(now + 1)])
  {
    var n := BestBlock(now + 1);
    InOrderSnoc(best, said, now, n);
    RisingSnoc(said, now + 2, n, now + 2);
    ReportedSnoc(said, n);
  }

  function BlockNotes(h: nat, txs: seq<Txid>): seq<Note> {
    (if txs == [] then [] else [Confirmed(h, txs)]) + [BestBlock(h)]
  }

  lemma BlockReported(w: World, best: nat, now: nat, said: seq<Note>, txs: seq<Txid>)
    requires Progress(w, best, now, said) && Truthful(w.chain, Confirmed(now + 1, txs))
    requires forall t :: t in txs <==> Active(w, now + 1, t) && At(w.chain, t, now + 1)
    ensures Progress(w, best, now + 1, said + BlockNotes(now + 1, txs))
    ensures KeepsReports(said, said + BlockNotes(now + 1, txs))
  {
    var mid := said;
    if txs != [] {
      TxsNoted(w, best, now, said, txs);
      mid := said + [Confirmed(now + 1, txs)];
    }
    forall t, h: nat | best < h <= now + 1 && Active(w, h, t) && At(w.chain, t, h)
      ensures Reported(mid, t, h)
    {
      assert if h == now + 1 then t in txs else Reported(said, t, h);
    }
    BlockNoted(w, best, now, mid);
    assert mid + [BestBlock(now + 1)] == said + BlockNotes(now + 1, txs);
  }

  function Reach(best: nat, tip: nat): nat {
    var end := ForwardSyncBatchEnd(best, tip, MAX_FORWARD_BLOCKS_PER_SYNC);
    if end < best then best else end
  }

  method Forward(w: World, node: Node, k0: nat, ghost earlier: seq<Note>, ghost before: seq<Note>)
    returns (ok: bool, k: nat, ghost said: seq<Note>)
    requires node.notes == earlier + before && Progress(w, node.best, node.best, before)
    modifies node
    ensures k >= k0 && (ok <==> Clean(w, k0, k))
    ensures node.notes == earlier + said && Progress(w, old(node.best), node.best, said) && KeepsReports(before, said)
    ensures node.best <= Reach(old(node.best), w.tip) && (ok ==> node.best == Reach(old(node.best), w.tip))
  {
    var best := node.best;
    var batchEnd := ForwardSyncBatchEnd(best, w.tip, MAX_FORWARD_BLOCKS_PER_SYNC);
    ok, k, said := true, k0, before;
    var h := best + 1;
    while h <= batchEnd
      invariant h == node.best + 1 && best < h <= Reach(best, w.tip) + 1
      invariant ok && k >= k0 && Clean(w, k0, k)
      invariant node.notes == earlier + said && Progress(w, best, node.best, said) && KeepsReports(before, said)
      decreases batchEnd + 1 - h
    {
      var txdata;
      var k1 := k;
      ok, k, txdata := ForwardBlock(w, h, k1);
      assert Clean(w, k0, k1);
      if !ok {
        return;
      }
      BlockReported(w, best, h - 1, said, txdata);
      if |txdata| > 0 {
        node.TransactionsConfirmed(txdata, h);
      }
      node.BestBlockUpdated(h);
      said := said + BlockNotes(h, txdata);
      h := h + 1;
    }
  }

  // ---------------------------------------------------------------- one call

  /** A call: the best block before and after, what the node was told, and whether the call returned normally. */
  datatype Call = Call(world: World, best: nat, after: nat, said: seq<Note>, ok: bool, fetches: nat)

  ghost predicate Outcome(c: Call) {
    && Progress(c.world, c.best, c.after, c.said)
    && c.after <= Reach(c.best, c.world.tip)
    && (c.ok ==> c.after == Reach(c.best, c.world.tip))
    && (Clean(c.world, 0, c.fetches) && c.best <= c.world.tip ==> c.ok && Complete(c.world, c.best, c.said))
  }

  method Sync(w: World, node: Node) returns (ok: bool, fetches: nat, ghost said: seq<Note>)
    modifies node
    ensures node.notes == old(node.notes) + said
    ensures Outcome(Call(w, old(node.best), node.best, said, ok, fetches))
    ensures forall i, j :: 0 <= i < j < |said| && said[j].Confirmed? ==> said[i].height < said[j].height
  {
    var best := node.best;
    ok, fetches, said := false, 1, [];
    assert node.notes + said == node.notes;
    if w.fails(0) {
      return;
    }
    fetches := 2;
    if w.fails(1) {
      return;
    }
    if best > 0 {
      // The block at the best height, to compare hashes; the server may not have it yet.
      fetches := 3;
      if w.fails(2) || best > TipSeen(w, 2) {
        return;
      }
    }
    var k0 := fetches;
    fetches, said := CatchUp(w, node, k0);
    var k1 := fetches;
    ghost var buried := said;
    ok, fetches, said := Forward(w, node, k1, old(node.notes), buried);
    assert Clean(w, 0, fetches) ==> Clean(w, k0, k1) && Clean(w, k1, fetches);
  }

  /** A call without a failed fetch reports whatever it watches throughout and has passed, at its own height. */
  lemma CleanCallReports(c: Call, t: Txid, h: nat)
    requires Outcome(c) && Clean(c.world, 0, c.fetches) && c.best <= c.world.tip
    requires At(c.world.chain, t, h) && h <= c.after
    requires if h <= c.best then Watched(c.world, c.best, t) else Active(c.world, h, t)
    ensures c.ok && Reported(c.said, t, h)
  {
    assert NoneSkipped(c.world, c.best, c.after, c.said) && Complete(c.world, c.best, c.said);
  }

  // ---------------------------------------------------------------- many calls

  ghost predicate Chained(cs: seq<Call>) {
    && (forall i :: 0 <= i < |cs| ==> Outcome(cs[i]))
    && (forall i :: 0 <= i < |cs| - 1 ==> cs[i].after == cs[i + 1].best)
  }

  function AllSaid(cs: seq<Call>): seq<Note> {
    if cs == [] then [] else AllSaid(cs[..|cs| - 1]) + cs[|cs| - 1].said
  }

  function BestBlocks(notes: seq<Note>): seq<nat> {
    if notes == [] then []
    else BestBlocks(notes[..|notes| - 1]) + match notes[|notes| - 1] case BestBlock(h) => [h] case Confirmed(_, _) => []
  }

  function UpFrom(b: nat, n: nat): seq<nat> {
    seq(n, i => b + 1 + i)
  }

  lemma {:induction false} InOrderCounts(b: nat, notes: seq<Note>, b': nat)
    requires InOrder(b, notes, b')
    ensures b <= b' && BestBlocks(notes) == UpFrom(b, b' - b)
    decreases |notes|
  {
    if notes != [] {
      var init, n := notes[..|notes| - 1], notes[|notes| - 1];
      InOrderCounts(b, init, if n.BestBlock? then b' - 1 else b');
    }
  }

  lemma {:induction false} InOrderConcat(b: nat, x: seq<Note>, c: nat, y: seq<Note>, d: nat)
    requires InOrder(b, x, c) && InOrder(c, y, d) && b <= c
    ensures InOrder(b, x + y, d)
    decreases |y|
  {
    if y == [] {
      assert x + y == x;
    } else {
      var init, n := y[..|y| - 1], y[|y| - 1];
      assert (x + y)[..|x + y| - 1] == x + init;
      InOrderConcat(b, x, c, init, if n.BestBlock? then d - 1 else d);
    }
  }

  lemma {:induction false} AllInOrder(cs: seq<Call>)
    requires cs != [] && Chained(cs)
    ensures cs[0].best <= cs[|cs| - 1].after && InOrder(cs[0].best, AllSaid(cs), cs[|cs| - 1].after)
    decreases |cs|
  {
    var n := |cs| - 1;
    var c := cs[n];
    assert Outcome(c);
    if n == 0 {
      assert AllSaid(cs[..0]) == [] && [] + c.said == c.said;
    } else {
      assert Outcome(cs[n - 1]) && cs[n - 1].after == c.best;
      AllInOrder(cs[..n]);
      InOrderConcat(cs[0].best, AllSaid(cs[..n]), c.best, c.said, c.after);
    }
  }

  /** Over any calls, aborted ones included, the best block rises one by one: no gap and no repeat. */
  lemma BestBlocksConsecutive(cs: seq<Call>)
    requires cs != [] && Chained(cs)
    ensures cs[0].best <= cs[|cs| - 1].after
    ensures BestBlocks(AllSaid(cs)) == UpFrom(cs[0].best, cs[|cs| - 1].after - cs[0].best)
  {
    AllInOrder(cs);
    InOrderCounts(cs[0].best, AllSaid(cs), cs[|cs| - 1].after);
  }

  /** Each block is passed by one call, which reports everything it then looks for in that block. */
  lemma {:induction false} EveryBlockSearched(cs: seq<Call>, h: nat) returns (i: nat)
    requires cs != [] && Chained(cs) && cs[0].best < h <= cs[|cs| - 1].after
    ensures i < |cs| && cs[i].best < h <= cs[i].after
    ensures forall t :: Active(cs[i].world, h, t) && At(cs[i].world.chain, t, h) ==> Reported(cs[i].said, t, h)
    decreases |cs|
  {
    i := |cs| - 1;
    assert Outcome(cs[i]);
    if h <= cs[i].best {
      assert cs[i - 1].after == cs[i].best;
      i := EveryBlockSearched(cs[..i], h);
    }
  }

  // ---------------------------------------------------------------- what is never found

  /** Whatever a call reports is reported at its own height, no higher than the block reached, and was looked for there. */
  lemma ReportedSoundly(c: Call, t: Txid, h: nat)
    requires Outcome(c) && Reported(c.said, t, h)
    ensures At(c.world.chain, t, h) && h <= c.after && Sought(c.world, c.best, h, t)
  {
    var i :| 0 <= i < |c.said| && c.said[i].Confirmed? && c.said[i].height == h && t in c.said[i].txs;
    assert Founded(c.world, c.best, c.said[i]);
  }

  /**
    At or below the block it starts at, a call reports a transaction only when the node lists it with its block
    unknown or has registered it; when no fetch fails, it reports every such transaction confirmed there.
   */
  lemma CatchUpExactly(c: Call, t: Txid, h: nat)
    requires Outcome(c) && h <= c.best
    ensures var confirmed := c.world.chain.heightOf(t) == Some(h);
            var asked := (t, false) in c.world.relevant(c.best) || t in c.world.registered(c.best);
            && (Reported(c.said, t, h) ==> confirmed && asked)
            && (confirmed && asked && Clean(c.world, 0, c.fetches) && c.best <= c.world.tip ==> Reported(c.said, t, h))
  {
    UnconfirmedExactly(c.world.relevant(c.best), t);
    if Reported(c.said, t, h) {
      ReportedSoundly(c, t, h);
    }
  }

  /** In a block it passes, it reports exactly what the node lists or has registered, and the spenders of its outputs. */
  lemma ForwardExactly(c: Call, t: Txid, h: nat)
    requires Outcome(c) && c.best < h <= c.after
    ensures Reported(c.said, t, h) <==>
              && c.world.chain.heightOf(t) == Some(h)
              && (|| (t, false) in c.world.relevant(h) || (t, true) in c.world.relevant(h) || t in c.world.registered(h)
                  || exists op :: op in c.world.outputs(h) && c.world.chain.spender(op) == Some(t))
  {
    var rel := c.world.relevant(h);
    IdsExactly(rel, t);
    if Reported(c.said, t, h) {
      ReportedSoundly(c, t, h);
    }
    assert Active(c.world, h, t) && At(c.world.chain, t, h) ==> Reported(c.said, t, h);
  }

  lemma IdsExactly(rel: seq<(Txid, bool)>, t: Txid)
    ensures t in Ids(rel) <==> (t, false) in rel || (t, true) in rel
  {
    if t in Ids(rel) {
      var i :| 0 <= i < |rel| && rel[i].0 == t;
      if rel[i].1 {
        assert rel[i] == (t, true);
      } else {
        assert rel[i] == (t, false);
      }
    }
    if (t, false) in rel || (t, true) in rel {
      var i :| 0 <= i < |rel| && (rel[i] == (t, false) || rel[i] == (t, true));
      assert Ids(rel)[i] == t;
    }
  }

  /** The calls follow one chain; in none of them is the transaction looked for except as the spender of `op`. */
  ghost predicate OnlyAsSpender(cs: seq<Call>, c: Chain, t: Txid, h: nat, op: Outpoint) {
    && c.spender(op) == Some(t) && At(c, t, h)
    && forall i :: 0 <= i < |cs| ==> OnlySpender(cs[i], c, t, h, op)
  }

  ghost predicate OnlySpender(call: Call, c: Chain, t: Txid, h: nat, op: Outpoint) {
    var w := call.world;
    && w.chain == c && !Watched(w, call.best, t) && t !in Ids(w.relevant(h)) && t !in w.registered(h)
    && forall p :: p in w.outputs(h) && c.spender(p) == Some(t) ==> p == op
  }

  ghost predicate EverReported(cs: seq<Call>, t: Txid) {
    exists i, k: nat :: 0 <= i < |cs| && Reported(cs[i].said, t, k)
  }

  lemma OnlyItsBlock(call: Call, c: Chain, t: Txid, h: nat, op: Outpoint, k: nat)
    requires Outcome(call) && At(c, t, h) && c.spender(op) == Some(t) && OnlySpender(call, c, t, h, op)
    ensures Reported(call.said, t, k) ==> k == h
    ensures Reported(call.said, t, h) <==> call.best < h <= call.after && op in call.world.outputs(h)
  {
    if Reported(call.said, t, k) {
      ReportedSoundly(call, t, k);
    }
    if Reported(call.said, t, h) {
      ReportedSoundly(call, t, h);
    }
  }

  lemma {:induction false} PassedOnce(cs: seq<Call>, i: nat, j: nat)
    requires Chained(cs) && i < j < |cs|
    ensures cs[i].after <= cs[j].best
    decreases j
  {
    assert Outcome(cs[j - 1]) && cs[j - 1].after == cs[j].best;
    if i < j - 1 {
      PassedOnce(cs, i, j - 1);
    }
  }

  /**
    A spender that nothing else asks for is ever reported, by any of the calls, exactly when its output was
    registered by the time call `i`, the one that passed its block, searched that block. Catch-up looks at no outputs.
   */
  lemma SpenderFoundExactly(cs: seq<Call>, c: Chain, t: Txid, h: nat, op: Outpoint) returns (i: nat)
    requires cs != [] && Chained(cs) && OnlyAsSpender(cs, c, t, h, op)
    requires cs[0].best < h <= cs[|cs| - 1].after
    ensures i < |cs| && cs[i].best < h <= cs[i].after
    ensures EverReported(cs, t) <==> op in cs[i].world.outputs(h)
  {
    i := EveryBlockSearched(cs, h);
    OnlyItsBlock(cs[i], c, t, h, op, h);
    if EverReported(cs, t) {
      var j, k: nat :| 0 <= j < |cs| && Reported(cs[j].said, t, k);
      OnlyItsBlock(cs[j], c, t, h, op, k);
      if i < j {
        PassedOnce(cs, i, j);
      } else if j < i {
        PassedOnce(cs, j, i);
      }
    }
  }

  // One chain: block 1 holds transaction 7, which creates output 0, and transaction 9, which spends it.
  const LATE: Chain := Chain(t => if t == 7 || t == 9 then Some(1) else None, t => t, p => if p == 0 then Some(9) else None)

  // Transaction 7 is registered throughout; output 0 is registered once block 1 has been reported.
  function LateWorld(tip: nat): World {
    World(LATE, tip, k => tip, k => false, h => [], h => [7], h => if h <= 1 then [] else [0])
  }

  function LateCalls(): seq<Call> {
    [Call(LateWorld(1), 0, 1, [Confirmed(1, [7]), BestBlock(1)], true, 8),
     Call(LateWorld(2), 1, 2, [Confirmed(1, [7]), BestBlock(2)], true, 11)]
  }

  // Both calls confirm transaction 7 at height 1 and then reach the next block.
  lemma LateNotes(w: World, best: nat)
    requires w.chain == LATE && w.registered(best) == [7] && w.registered(1) == [7] && best <= 1
    ensures var said := [Confirmed(1, [7]), BestBlock(best + 1)];
            InOrder(best, said, best + 1) && Rising(said, best + 2) && AllFounded(w, best, said) && Reported(said, 7, 1)
  {
    var n := Confirmed(1, [7]);
    InOrderSnoc(best, [], best, n);
    InOrderSnoc(best, [n], best, BestBlock(best + 1));
    assert [] + [n] == [n] && [n] + [BestBlock(best + 1)] == [n, BestBlock(best + 1)];
    assert Sought(w, best, 1, 7);
    assert [n, BestBlock(best + 1)][0] == n;
  }

  lemma LateFirst()
    ensures Outcome(LateCalls()[0])
  {
    var w := LateWorld(1);
    LateNotes(w, 0);
    assert forall t :: At(LATE, t, 1) && Active(w, 1, t) ==> t == 7;
  }

  lemma LateSecond()
    ensures Outcome(LateCalls()[1])
  {
    var w := LateWorld(2);
    LateNotes(w, 1);
    assert forall t :: Watched(w, 1, t) ==> t == 7;
  }

  lemma LateChained()
    ensures Chained(LateCalls()) && LateCalls()[0].best == 0 && LateCalls()[1].after == 2
    ensures forall i :: 0 <= i < 2 ==> LateCalls()[i].world.outputs(1) == []
  {
    LateFirst();
    LateSecond();
  }

  lemma LateOnly()
    ensures OnlyAsSpender(LateCalls(), LATE, 9, 1, 0)
  {
    var cs := LateCalls();
    assert OnlySpender(cs[0], LATE, 9, 1, 0) && OnlySpender(cs[1], LATE, 9, 1, 0);
  }

  /**
    Such outputs exist: every fetch succeeds, the output is registered right after the block that creates and
    spends it, and stays registered; its spender is not reported, then or later.
   */
  lemma LateOutputMissed()
    ensures Chained(LateCalls())
    ensures forall c :: c in LateCalls() ==> c.ok && Clean(c.world, 0, c.fetches)
    ensures At(LATE, 9, 1) && LATE.spender(0) == Some(9) && 0 in LateCalls()[1].world.outputs(2)
    ensures !EverReported(LateCalls(), 9)
  {
    LateChained();
    LateOnly();
    var i := SpenderFoundExactly(LateCalls(), LATE, 9, 1, 0);
  }

  function Completed(cs: seq<Call>): nat {
    if cs == [] then 0 else Completed(cs[..|cs| - 1]) + if cs[|cs| - 1].ok then 1 else 0
  }

  /** Aborted calls lose nothing: each completed call brings the best block twenty closer to the tip. */
  lemma {:induction false} TipApproached(cs: seq<Call>, tip: nat)
    requires cs != [] && Chained(cs) && forall i :: 0 <= i < |cs| ==> cs[i].world.tip >= tip
    ensures var b := cs[|cs| - 1].after; b >= tip || b >= cs[0].best + 20 * Completed(cs)
    decreases |cs|
  {
    var n := |cs| - 1;
    assert Outcome(cs[n]);
    if n > 0 {
      TipApproached(cs[..n], tip);
      assert cs[n - 1].after == cs[n].best;
    } else {
      assert cs[..0] == [] && Completed(cs[..0]) == 0;
    }
  }

  function CeilDiv(d: nat, m: nat): nat
    requires m > 0
  {
    (d + m - 1) / m
  }

  /** A tip `d` blocks ahead is reached once ceil(d / 20) calls have completed. */
  lemma {:induction false} TipReached(cs: seq<Call>, tip: nat)
    requires cs != [] && Chained(cs) && cs[0].best <= tip && forall i :: 0 <= i < |cs| ==> cs[i].world.tip >= tip
    requires Completed(cs) >= CeilDiv(tip - cs[0].best, MAX_FORWARD_BLOCKS_PER_SYNC)
    ensures cs[|cs| - 1].after >= tip
  {
    TipApproached(cs, tip);
  }

  /** And not before, when every call completes against that tip. */
  lemma {:induction false} TipReachedExactly(cs: seq<Call>, tip: nat)
    requires cs != [] && Chained(cs) && cs[0].best <= tip
    requires forall i :: 0 <= i < |cs| ==> cs[i].world.tip == tip && cs[i].ok
    ensures var b := cs[0].best + 20 * |cs|; cs[|cs| - 1].after == if b < tip then b else tip
    ensures cs[|cs| - 1].after == tip <==> |cs| >= CeilDiv(tip - cs[0].best, MAX_FORWARD_BLOCKS_PER_SYNC)
    decreases |cs|
  {
    var n := |cs| - 1;
    assert Outcome(cs[n]);
    if n > 0 {
      TipReachedExactly(cs[..n], tip);
      assert cs[n - 1].after == cs[n].best;
    }
  }
}
