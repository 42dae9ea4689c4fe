/**
How two peers find where their main chains part: the locator one sends, which steps back
twice as far each time, and the block IDs the other answers with.
*/
module Locator {
  import opened Types
  import opened Rules
  import opened LedgerModel
  import opened LedgerDB

  const MAX_BLOCKS_PER_INV := 500

  /** How far below the start the k-th entry is: 0 to 11, 13, 17, 25, ... */
  function Off(k: nat): nat {
    if k < 10 then k else 9 + Pow2(k - 10)
  }

  function StepAt(k: nat): nat {
    if k <= 10 then 1 else Pow2(k - 10)
  }

  lemma OffStep(k: nat)
    ensures Off(k + 1) == Off(k) + StepAt(k)
    ensures StepAt(k + 1) == if k + 1 > 10 then 2 * StepAt(k) else StepAt(k)
  {
    if k == 9 {
      assert Pow2(0) == 1;
    } else if k == 10 {
      assert Pow2(1) == 2;
    }
  }

  lemma {:induction false} OffGrows(j: nat, k: nat)
    requires j <= k
    ensures Off(j) <= Off(k)
  {
    if j < k {
      OffGrows(j, k - 1);
      OffStep(k - 1);
    }
  }

  /** A block ID from the height index, or the start itself. */
  function Entry(start: BlockID, height: int, heights: map<int, BlockID>, k: nat): Option<BlockID> {
    if k == 0 then Some(start)
    else if height - Off(k) in heights then Some(heights[height - Off(k)])
    else None
  }

  /** The locator from a start at a height: entries above genesis, then genesis. */
  ghost predicate Locates(ids: seq<BlockID>, start: BlockID, height: int, heights: map<int, BlockID>,
          genesis: BlockID) {
    && |ids| >= 1 && ids[|ids| - 1] == genesis
    && (forall k :: 0 <= k < |ids| - 1 ==> Entry(start, height, heights, k) == Some(ids[k]) && ids[k] != genesis)
    && (forall k :: 0 < k < |ids| - 1 ==> Off(k) < height)
    && var n := |ids| - 1;
       (n > 0 && Off(n) >= height) || Entry(start, height, heights, n) in {None, Some(genesis)}
  }

  class Peer {
    const genesisID: BlockID
    const store: BlockStorage
    const ledger: LedgerDisk
    var continuationBlockID: Option<BlockID>

    constructor (genesisID: BlockID, store: BlockStorage, ledger: LedgerDisk)
      ensures this.genesisID == genesisID && this.store == store && this.ledger == ledger
    {
      this.genesisID, this.store, this.ledger := genesisID, store, ledger;
      continuationBlockID := None;
    }

    /** Build the locator, from the tip or from a given block; `None` is an error. */
    method SendFindCommonAncestor(startID: Option<BlockID>) returns (r: Option<seq<BlockID>>)
      ensures r.None? <==> startID.Some? && startID.value !in store.blocks
      ensures r.Some? && startID.None? && ledger.tip.None? ==> r.value == [genesisID]
      ensures r.Some? && startID.None? && ledger.tip.Some? ==>
                Locates(r.value, ledger.tip.value.id, ledger.tip.value.height, ledger.heights, genesisID)
      ensures r.Some? && startID.Some? ==>
                Locates(r.value, startID.value, store.blocks[startID.value].block.header.height,
                        ledger.heights, genesisID)
    {
      if startID.Some? {
        if startID.value !in store.blocks {
          return None;
        }
        var ids := WalkBack(startID.value, store.blocks[startID.value].block.header.height);
        return Some(ids);
      }
      if ledger.tip.None? {
        return Some([genesisID]);
      }
      var ids := WalkBack(ledger.tip.value.id, ledger.tip.value.height);
      return Some(ids);
    }

    method WalkBack(start: BlockID, top: int) returns (ids: seq<BlockID>)
      ensures Locates(ids, start, top, ledger.heights, genesisID)
    {
      ids := [];
      var height, step, id := top, 1, Some(start);
      while id.Some? && id.value != genesisID
        invariant height == top - Off(|ids|) && step == StepAt(|ids|) && id == Entry(start, top, ledger.heights, |ids|)
        invariant forall k :: 0 <= k < |ids| ==>
                    Entry(start, top, ledger.heights, k) == Some(ids[k]) && ids[k] != genesisID
        invariant forall k :: 0 < k < |ids| ==> Off(k) < top
        invariant |ids| > 0 ==> Off(|ids|) < top
        decreases height
      {
        OffStep(|ids|);
        ids := ids + [id.value];
        var depth := height - step;
        if depth <= 0 {
          break;
        }
        id := if depth in ledger.heights then Some(ledger.heights[depth]) else None;
        if |ids| > 10 {
          step := step * 2;
        }
        height := depth;
      }
      ids := ids + [genesisID];
    }

    /** This peer's main chain, as its ledger and store tell it. */
    ghost predicate Serves(main: seq<BlockID>)
      reads ledger, store
    {
      && IsChain(main, genesisID)
      && ledger.tip == Some(Tip(main[|main| - 1], |main| - 1))
      && ledger.heights == HeightsOf(main)
      && (forall id :: id in main <==> ledger.GetBranchType(id) == MAIN)
      && (forall i :: 0 <= i < |main| ==> main[i] in store.blocks && store.blocks[main[i]].block.header.height == i)
    }

    /** The main chain's IDs from a height on, as many as fit into an answer. */
    method From(start: int, ghost main: seq<BlockID>, ghost h: nat) returns (inv: seq<BlockID>)
      requires ledger.heights == HeightsOf(main) && h < |main| && start == h + 1
      ensures inv == Next(main, h)
    {
      inv := [];
      var height := start;
      while |inv| < MAX_BLOCKS_PER_INV
        invariant |inv| <= MAX_BLOCKS_PER_INV && height == h + 1 + |inv| <= |main| && inv == main[h + 1..height]
      {
        if height !in ledger.heights {
          break;
        }
        inv := inv + [ledger.heights[height]];
        height := height + 1;
      }
    }

    /** Answer with the main chain's IDs right after a block on it. */
    method OnFindCommonAncestor(id: BlockID, ghost main: seq<BlockID>)
        returns (found: bool, inv: seq<BlockID>, ghost h: nat)
      requires Serves(main)
      modifies this
      ensures found <==> id in main
      ensures found ==> h < |main| && main[h] == id && inv == Next(main, h)
      ensures !found ==> inv == []
      ensures continuationBlockID == if inv == [] then old(continuationBlockID) else Some(inv[|inv| - 1])
    {
      inv, h := [], 0;
      if id !in store.blocks || ledger.GetBranchType(id) != MAIN {
        assert id !in main;
        return false, [], 0;
      }
      h :| 0 <= h < |main| && main[h] == id;
      inv := From(store.blocks[id].block.header.height + 1, main, h);
      if |inv| > 0 {
        continuationBlockID := Some(inv[|inv| - 1]);
      }
      found := true;
    }

    /** The first entry of a locator that is on the main chain is answered. */
    method OnMessage(ids: seq<BlockID>, ghost main: seq<BlockID>)
        returns (inv: seq<BlockID>, ghost m: nat, ghost h: nat)
      requires Serves(main)
      modifies this
      ensures m <= |ids| && forall k :: 0 <= k < m ==> ids[k] !in main
      ensures m < |ids| ==> h < |main| && main[h] == ids[m] && inv == Next(main, h)
      ensures m == |ids| ==> inv == []
    {
      inv, m, h := [], 0, 0;
      var i := 0;
      while i < |ids|
        invariant 0 <= i == m <= |ids| && inv == [] && forall k :: 0 <= k < m ==> ids[k] !in main
      {
        var found;
        found, inv, h := OnFindCommonAncestor(ids[i], main);
        if found {
          break;
        }
        i, m := i + 1, m + 1;
      }
    }
  }

  // ----- what the exchange achieves

  /** Block IDs from genesis up, none twice. */
  ghost predicate IsChain(ids: seq<BlockID>, genesis: BlockID) {
    ids != [] && ids[0] == genesis && forall i, j :: 0 <= i < j < |ids| ==> ids[i] != ids[j]
  }

  ghost function HeightsOf(main: seq<BlockID>): map<int, BlockID> {
    map i: int | 0 <= i < |main| :: main[i]
  }

  /** At most 500 IDs after position h. */
  ghost function Next(main: seq<BlockID>, h: nat): seq<BlockID>
    requires h < |main|
  {
    main[h + 1..if h + 1 + MAX_BLOCKS_PER_INV < |main| then h + 1 + MAX_BLOCKS_PER_INV else |main|]
  }

  /** The first c blocks are common to both chains, and no later block of the first is on the second. */
  ghost predicate PartsAt(ours: seq<BlockID>, theirs: seq<BlockID>, c: nat) {
    && 1 <= c <= |ours| && c <= |theirs| && ours[..c] == theirs[..c]
    && forall i :: c <= i < |ours| ==> ours[i] !in theirs
  }

  lemma InTheirs(ours: seq<BlockID>, theirs: seq<BlockID>, c: nat, i: nat)
    requires PartsAt(ours, theirs, c) && i < |ours|
    ensures ours[i] in theirs <==> i < c
  {
    if i < c {
      assert theirs[..c][i] == ours[..c][i];
    }
  }

  /** The next entry is at most twice as deep. */
  lemma OffAtMostDoubles(k: nat, d: nat)
    requires Off(k) < d
    ensures Off(k + 1) <= 2 * d && (d <= 11 ==> Off(k + 1) <= d)
  {
    OffStep(k);
    if k > 10 {
      OffGrows(11, k);
      assert Pow2(1) == 2;
    }
  }

  /** What one of the locator's entries is, and where the walk ended. */
  lemma EntryAt(ids: seq<BlockID>, ours: seq<BlockID>, genesis: BlockID, k: nat)
    requires IsChain(ours, genesis) && k < |ids|
    requires var top := |ours| - 1; Locates(ids, ours[top], top, HeightsOf(ours), genesis)
    ensures var top := |ours| - 1;
            if k < |ids| - 1 then Off(k) < top && ids[k] == ours[top - Off(k)] else ids[k] == ours[0] && Off(k) >= top
  {
    var top := |ours| - 1;
    if k < |ids| - 1 {
      assert Entry(ours[top], top, HeightsOf(ours), k) == Some(ids[k]);
    } else if k == 0 {
      assert ours[top] == genesis;
    }
  }

  /** The match is at depth d for a fork at most 11 below the tip, and at most 2d otherwise. */
  lemma FirstMatch(ours: seq<BlockID>, theirs: seq<BlockID>, genesis: BlockID, c: nat, ids: seq<BlockID>, m: nat)
      returns (depth: nat)
    requires IsChain(ours, genesis) && PartsAt(ours, theirs, c)
    requires var top := |ours| - 1; Locates(ids, ours[top], top, HeightsOf(ours), genesis)
    requires m < |ids| && ids[m] in theirs && forall k :: 0 <= k < m ==> ids[k] !in theirs
    ensures depth < |ours| && ids[m] == ours[|ours| - 1 - depth]
    ensures var d := |ours| - c;
            d <= depth <= 2 * d && (d <= 11 ==> depth == d)
  {
    var top, d := |ours| - 1, |ours| - c;
    EntryAt(ids, ours, genesis, m);
    depth := if m < |ids| - 1 then Off(m) else top;
    InTheirs(ours, theirs, c, top - depth);
    if m > 0 {
      AboveFork(ours, theirs, genesis, c, ids, m - 1);
      OffAtMostDoubles(m - 1, d);
    }
  }

  /** An entry that the other does not have lies above the fork. */
  lemma AboveFork(ours: seq<BlockID>, theirs: seq<BlockID>, genesis: BlockID, c: nat, ids: seq<BlockID>, k: nat)
    requires IsChain(ours, genesis) && PartsAt(ours, theirs, c)
    requires var top := |ours| - 1; Locates(ids, ours[top], top, HeightsOf(ours), genesis)
    requires k < |ids| - 1 && ids[k] !in theirs
    ensures Off(k) < |ours| - c
  {
    EntryAt(ids, ours, genesis, k);
    InTheirs(ours, theirs, c, |ours| - 1 - Off(k));
  }

  /** At most 12 + log2(height) IDs. */
  lemma LocatorIsShort(ours: seq<BlockID>, genesis: BlockID, ids: seq<BlockID>)
    requires IsChain(ours, genesis)
    requires var top := |ours| - 1; Locates(ids, ours[top], top, HeightsOf(ours), genesis)
    ensures |ids| > 12 ==> Pow2(|ids| - 12) < |ours| - 1
  {
    if |ids| > 12 {
      EntryAt(ids, ours, genesis, |ids| - 2);
    }
  }

  /** One round between two peers: the answer continues the other's chain from a common block near the fork. */
  method FindCommonAncestor(us: Peer, them: Peer, ghost ours: seq<BlockID>, ghost theirs: seq<BlockID>, ghost c: nat)
      returns (inv: seq<BlockID>, ghost depth: nat)
    requires us.Serves(ours) && them.Serves(theirs) && us.genesisID == them.genesisID && PartsAt(ours, theirs, c)
    modifies them
    ensures var d := |ours| - c;
            d <= depth <= 2 * d && depth < |ours| && (d <= 11 ==> depth == d)
    ensures |ours| - 1 - depth < |theirs| && inv == Next(theirs, |ours| - 1 - depth)
  {
    var locator := us.SendFindCommonAncestor(None);
    ghost var m, h;
    inv, m, h := them.OnMessage(locator.value, theirs);
    assert locator.value[|locator.value| - 1] == theirs[0];
    depth := FirstMatch(ours, theirs, us.genesisID, c, locator.value, m);
    SameHeight(ours, theirs, us.genesisID, c, |ours| - 1 - depth, h);
  }

  lemma SameHeight(ours: seq<BlockID>, theirs: seq<BlockID>, genesis: BlockID, c: nat, i: nat, h: nat)
    requires PartsAt(ours, theirs, c) && IsChain(theirs, genesis) && i < |ours| && h < |theirs| && ours[i] == theirs[h]
    ensures i == h
  {
    InTheirs(ours, theirs, c, i);
    assert theirs[..c][i] == ours[..c][i];
  }
}
