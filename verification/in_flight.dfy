/**
Which peer downloads which block: the block queues, one peer's handlers, and the protocol of
any number of peers over one shared in-flight queue, interleaved at every queue operation.
*/
module InFlight {
  import opened Types

  const MAX_QUEUE_WAIT := 120
  const INFLIGHT_QUEUE_MAX := 8
  const DOWNLOAD_QUEUE_MAX := 5000
  const MAX_BLOCKS_PER_INV := 500

  type Address = string

  datatype Entry = Entry(who: Address, when: int)

  /** The list in order, and who is responsible for each block since when. */
  datatype Queue = Queue(order: seq<BlockID>, entries: map<BlockID, Entry>)

  const EMPTY := Queue([], map[])

  ghost predicate Agrees(q: Queue) {
    Distinct(q.order) && forall id :: id in q.order <==> id in q.entries
  }

  /** Whether adding a block makes this peer responsible for it. */
  predicate CanAdd(q: Queue, id: BlockID, now: int) {
    id !in q.entries || now - q.entries[id].when >= MAX_QUEUE_WAIT
  }

  function Added(q: Queue, id: BlockID, who: Address, now: int): Queue {
    Queue(if id in q.entries then q.order else q.order + [id], q.entries[id := Entry(who, now)])
  }

  predicate CanRemove(q: Queue, id: BlockID, who: Address) {
    id in q.entries && q.entries[id].who == who
  }

  function Without(order: seq<BlockID>, id: BlockID): seq<BlockID> {
    if order == [] then [] else if order[0] == id then order[1..] else [order[0]] + Without(order[1..], id)
  }

  function Removed(q: Queue, id: BlockID): Queue {
    Queue(Without(q.order, id), q.entries - {id})
  }

  ghost predicate Distinct(order: seq<BlockID>) {
    forall i, j :: 0 <= i < j < |order| ==> order[i] != order[j]
  }

  lemma HeadDiffers(order: seq<BlockID>)
    requires order != [] && Distinct(order)
    ensures order[0] !in order[1..] && Distinct(order[1..]) && order == [order[0]] + order[1..]
  {
    assert forall i :: 0 <= i < |order[1..]| ==> order[1..][i] == order[i + 1];
  }

  lemma {:induction false} WithoutFacts(order: seq<BlockID>, id: BlockID)
    requires Distinct(order)
    ensures forall x :: x in Without(order, id) <==> x in order && x != id
    ensures Distinct(Without(order, id))
    ensures |Without(order, id)| == if id in order then |order| - 1 else |order|
  {
    if order != [] {
      HeadDiffers(order);
      if order[0] != id {
        WithoutFacts(order[1..], id);
      }
    }
  }

  lemma RemovedAgrees(q: Queue, id: BlockID)
    requires Agrees(q)
    ensures Agrees(Removed(q, id)) && id !in Removed(q, id).entries
    ensures |Removed(q, id).order| == if id in q.entries then |q.order| - 1 else |q.order|
  {
    WithoutFacts(q.order, id);
  }

  lemma AddedAgrees(q: Queue, id: BlockID, who: Address, now: int)
    requires Agrees(q)
    ensures Agrees(Added(q, id, who, now)) && id in Added(q, id, who, now).entries
    ensures |Added(q, id, who, now).order| == if id in q.entries then |q.order| else |q.order| + 1
  {
  }

  class BlockQueue {
    var blockQueue: seq<BlockID>
    var blockMap: map<BlockID, Entry>

    constructor ()
      ensures Valid() && View() == EMPTY
    {
      blockQueue, blockMap := [], map[];
    }

    ghost function View(): Queue
      reads this
    {
      Queue(blockQueue, blockMap)
    }

    ghost predicate Valid()
      reads this
    {
      Agrees(View())
    }

    /** Add a block at the back, or take it over where it is if it has waited too long. */
    method Add(id: BlockID, who: Address, now: int) returns (added: bool)
      requires Valid()
      modifies this
      ensures Valid() && added == CanAdd(old(View()), id, now)
      ensures added <==> id !in old(blockMap) || now >= old(blockMap)[id].when + 120
      ensures View() == if added then Added(old(View()), id, who, now) else old(View())
    {
      AddedAgrees(View(), id, who, now);
      if id in blockMap {
        if now - blockMap[id].when < MAX_QUEUE_WAIT {
          return false;
        }
        blockMap := blockMap[id := Entry(who, now)];
        return true;
      }
      blockQueue := blockQueue + [id];
      blockMap := blockMap[id := Entry(who, now)];
      return true;
    }

    /** Remove a block, if the requester is responsible for it. */
    method Remove(id: BlockID, who: Address) returns (removed: bool)
      requires Valid()
      modifies this
      ensures Valid() && removed == CanRemove(old(View()), id, who)
      ensures View() == if removed then Removed(old(View()), id) else old(View())
    {
      if id in blockMap && blockMap[id].who == who {
        RemovedAgrees(View(), id);
        blockQueue := Without(blockQueue, id);
        blockMap := blockMap - {id};
        return true;
      }
      return false;
    }

    predicate Exists(id: BlockID)
      reads this
    {
      id in blockMap
    }

    function Peek(): Option<BlockID>
      reads this
    {
      if |blockQueue| == 0 then None else Some(blockQueue[0])
    }
  }

  /** Those that have not been processed, in order. */
  function Unprocessed(ids: seq<BlockID>, processed: set<BlockID>): seq<BlockID> {
    if ids == [] then []
    else
      var n := |ids| - 1;
      Unprocessed(ids[..n], processed) + (if ids[n] in processed then [] else [ids[n]])
  }

  /** One more leaves the front of the download queue. */
  lemma OneGone(all: seq<BlockID>, gone: seq<BlockID>, rest: seq<BlockID>, before: seq<BlockID>, flight: seq<BlockID>,
          processed: set<BlockID>)
    requires all == gone + rest && rest != [] && flight == before + Unprocessed(gone, processed)
    ensures Without(rest, rest[0]) == rest[1..] && all == (gone + [rest[0]]) + rest[1..]
    ensures (if rest[0] in processed then flight else flight + [rest[0]])
            == before + Unprocessed(gone + [rest[0]], processed)
  {
    assert (gone + [rest[0]])[..|gone|] == gone;
    assert rest == [rest[0]] + rest[1..];
  }

  /** What a block that arrives is taken for. */
  datatype Delivery = Unrequested | TooLow | Refused | Orphan | Accepted

  function Delivered(requested: bool, low: bool, orphan: bool, valid: bool): Delivery {
    if !requested then Unrequested else if low then TooLow else if orphan then Orphan else if valid then Accepted
    else Refused
  }

  // ----- one peer's handlers

  class Downloads {
    const address: Address
    const download: BlockQueue
    const inflight: BlockQueue
    const global: BlockQueue
    var ignoreBlocks: set<BlockID>

    constructor (address: Address, global: BlockQueue)
      requires global.Valid() && forall id :: id in global.blockMap ==> global.blockMap[id].who != address
      ensures this.address == address && this.global == global && Valid()
      ensures fresh(download) && fresh(inflight)
    {
      this.address, this.global := address, global;
      download := new BlockQueue();
      inflight := new BlockQueue();
      ignoreBlocks := {};
    }

    /** Local queues disjoint and bounded; what this peer owns in the shared queue, it has in flight. */
    ghost predicate Valid()
      reads this, download, inflight, global
    {
      && download != inflight && download != global && inflight != global
      && global.Valid() && PeerOK(PeerState(download.View(), inflight.View(), Idle))
      && (forall id :: id in inflight.blockMap ==> inflight.blockMap[id].who == "")
      && (forall id :: id in download.blockMap ==> download.blockMap[id].who == "")
      && (forall id :: id in global.blockMap && global.blockMap[id].who == address ==> id in inflight.blockMap)
    }

    /** Move the block at the front into flight, if nobody else is downloading it. */
    method Request(id: BlockID, now: int) returns (ok: bool)
      requires Valid() && download.Peek() == Some(id) && |inflight.blockQueue| < INFLIGHT_QUEUE_MAX
      modifies download, inflight, global
      ensures Valid() && ok == CanAdd(old(global.View()), id, now)
      ensures if ok then
                && download.View() == Removed(old(download.View()), id)
                    && inflight.View() == Added(old(inflight.View()), id, "", now)
                && global.View() == Added(old(global.View()), id, address, now)
              else
                unchanged(download) && unchanged(inflight) && global.View() == old(global.View())
    {
      assert id in download.blockMap;
      RemovedAgrees(download.View(), id);
      AddedAgrees(inflight.View(), id, "", now);
      ok := global.Add(id, address, now);
      if !ok {
        return;
      }
      var _ := download.Remove(id, "");
      var _ := inflight.Add(id, "", now);
    }

    /**
    Fill the in-flight queue as far as possible; it always comes to an end.  What leaves the front
    of the download queue is requested in order, unless it has been processed.
    */
    method ProcessDownloadQueue(processed: set<BlockID>, now: int) returns (ghost gone: seq<BlockID>)
      requires Valid()
      modifies download, inflight, global
      ensures Valid()
      ensures |inflight.blockQueue| == INFLIGHT_QUEUE_MAX || download.blockQueue == [] ||
              (download.blockQueue[0] !in processed && !CanAdd(global.View(), download.blockQueue[0], now))
      ensures old(download.blockQueue) == gone + download.blockQueue
      ensures inflight.blockQueue == old(inflight.blockQueue) + Unprocessed(gone, processed)
    {
      gone := [];
      while |inflight.blockQueue| < INFLIGHT_QUEUE_MAX
        invariant Valid() && old(download.blockQueue) == gone + download.blockQueue
        invariant inflight.blockQueue == old(inflight.blockQueue) + Unprocessed(gone, processed)
        decreases |download.blockQueue|
      {
        var front := download.Peek();
        if front.None? {
          break;
        }
        var id := front.value;
        assert id in download.blockMap;
        RemovedAgrees(download.View(), id);
        OneGone(old(download.blockQueue), gone, download.blockQueue, old(inflight.blockQueue),
            inflight.blockQueue, processed);
        if id in processed {
          var _ := download.Remove(id, "");
          gone := gone + [id];
          continue;
        }
        var ok := Request(id, now);
        if !ok {
          break;
        }
        gone := gone + [id];
      }
    }

    /** An announced block that is passed over: ignored, on its way, processed, or one too many. */
    predicate Skips(id: BlockID, processed: set<BlockID>)
      reads this, download, inflight
    {
      || id in ignoreBlocks || download.Exists(id) || inflight.Exists(id) || id in processed
      || |download.blockQueue| >= DOWNLOAD_QUEUE_MAX
    }

    /**
    A peer announces a block: an error for too long an announcement, and a request for more if it
    ends with a block that has been processed.  Any other block is queued last.
    */
    method OnInvBlock(id: BlockID, index: int, length: int, processed: set<BlockID>, now: int)
        returns (ok: bool, askMore: bool, ghost gone: seq<BlockID>)
      requires Valid()
      modifies download, inflight, global
      ensures Valid() && (ok <==> length <= MAX_BLOCKS_PER_INV)
      ensures askMore <==> ok && id !in ignoreBlocks && id !in old(download.blockMap) && id !in old(inflight.blockMap)
                           && id in processed && length > 1 && index + 1 == length
      ensures !ok || old(Skips(id, processed)) ==> unchanged(download) && unchanged(inflight) && unchanged(global)
      ensures ok && !old(Skips(id, processed)) ==>
                && old(download.blockQueue) + [id] == gone + download.blockQueue
                && inflight.blockQueue == old(inflight.blockQueue) + Unprocessed(gone, processed)
    {
      gone := [];
      if length > MAX_BLOCKS_PER_INV {
        return false, false, gone;
      }
      if id in ignoreBlocks || download.Exists(id) || inflight.Exists(id) {
        return true, false, gone;
      }
      if id in processed {
        return true, length > 1 && index + 1 == length, gone;
      }
      if |download.blockQueue| >= DOWNLOAD_QUEUE_MAX {
        return true, false, gone;
      }
      AddedAgrees(download.View(), id, "", now);
      var _ := download.Add(id, "", now);
      gone := ProcessDownloadQueue(processed, now);
      return true, false, gone;
    }

    /** Give up a block in flight, here and in the shared queue. */
    method Release(id: BlockID)
      requires Valid() && id in inflight.blockMap
      modifies inflight, global
      ensures Valid() && inflight.View() == Removed(old(inflight.View()), id)
      ensures id in global.blockMap ==> global.blockMap[id].who != address
      ensures global.View() == if CanRemove(old(global.View()), id, address) then Removed(old(global.View()), id)
                               else old(global.View())
    {
      RemovedAgrees(inflight.View(), id);
      var _ := inflight.Remove(id, "");
      var _ := global.Remove(id, address);
    }

    /**
    A block arrives.  One that was not asked for next, a bad one, or one too low too many ends the
    connection; a low one is given up and ignored from now on, and one that was processed or has no
    known parent is given up and the next ones are requested.
    */
    method OnBlock(id: BlockID, low: bool, orphan: bool, valid: bool, processed: set<BlockID>, now: int)
        returns (r: Delivery, disconnect: bool, ghost gone: seq<BlockID>)
      requires Valid()
      modifies this`ignoreBlocks, download, inflight, global
      ensures Valid() && (r.Unrequested? <==> old(inflight.blockQueue) == [] || old(inflight.blockQueue)[0] != id)
      ensures r.TooLow? <==> !r.Unrequested? && low
      ensures !r.Unrequested? && !low ==> (r.Orphan? <==> orphan) && (r.Accepted? <==> !orphan && valid)
      ensures disconnect <==>
                r.Unrequested? || r.Refused? || (r.TooLow? && |ignoreBlocks| > MAX_BLOCKS_PER_INV)
      ensures ignoreBlocks == if r.TooLow? then old(ignoreBlocks) + {id} else old(ignoreBlocks)
      ensures r.Unrequested? || r.Refused? ==> unchanged(download) && unchanged(inflight) && unchanged(global)
      ensures !r.Unrequested? && !r.Refused? ==>
                && old(inflight.blockQueue) != [] && old(download.blockQueue) == gone + download.blockQueue
                && inflight.blockQueue == old(inflight.blockQueue)[1..] + Unprocessed(gone, processed)
      ensures r.TooLow? ==> gone == []
    {
      gone := [];
      r := Delivered(inflight.Peek() == Some(id), low, orphan, valid);
      disconnect := r.Unrequested? || r.Refused?;
      if disconnect {
        return;
      }
      assert id in inflight.blockMap;
      Release(id);
      if low {
        ignoreBlocks := ignoreBlocks + {id};
        disconnect := |ignoreBlocks| > MAX_BLOCKS_PER_INV;
        return;
      }
      gone := ProcessDownloadQueue(processed, now);
    }

    /** When the connection ends, everything this peer was responsible for is free again. */
    method OnDisconnect()
      requires Valid()
      modifies inflight, global
      ensures Valid() && inflight.blockQueue == []
      ensures forall id :: id in global.blockMap ==> global.blockMap[id].who != address
      ensures forall id :: id in old(global.blockMap) && old(global.blockMap[id].who) != address ==>
                id in global.blockMap && global.blockMap[id] == old(global.blockMap[id])
    {
      var front := inflight.Peek();
      while front.Some?
        invariant Valid() && front == inflight.Peek()
        invariant forall id :: id in old(global.blockMap) && old(global.blockMap[id].who) != address ==>
                    id in global.blockMap && global.blockMap[id] == old(global.blockMap[id])
        decreases |inflight.blockQueue|
      {
        assert front.value in inflight.blockMap;
        RemovedAgrees(inflight.View(), front.value);
        Release(front.value);
        front := inflight.Peek();
      }
    }
  }

  // ----- any number of peers

  /** Where a peer is between two looks at what others may change: the ledger and the shared queue. */
  datatype Phase = Idle | Announced(id: BlockID) | Tested(id: BlockID) | Claimed(id: BlockID) | Dropped(id: BlockID)

  datatype PeerState = PeerState(download: Queue, inflight: Queue, phase: Phase)

  datatype System = System(global: Queue, peers: map<Address, PeerState>, processed: set<BlockID>)

  /** One operation of one peer, or a block processed, or a peer coming or going. */
  datatype Step =
    | Connect(who: Address)
    | Announce(who: Address, id: BlockID)
    | Enqueue(who: Address, now: int)
    | Discard(who: Address)
    | Test(who: Address)
    | Claim(who: Address, now: int)
    | Take(who: Address, now: int)
    | Drop(who: Address)
    | Free(who: Address)
    | Leave(who: Address)
    | Process(id: BlockID)

  predicate Enabled(s: System, step: Step) {
    match step
    case Connect(who) => who !in s.peers
    case Announce(who, id) =>
      who in s.peers && var p := s.peers[who];
      && p.phase.Idle? && id !in p.download.entries && id !in p.inflight.entries
      && id !in s.processed && |p.download.order| < DOWNLOAD_QUEUE_MAX
    case Enqueue(who, now) => who in s.peers && s.peers[who].phase.Announced?
    case Discard(who) =>
      who in s.peers && var p := s.peers[who];
      p.phase.Idle? && p.download.order != [] && p.download.order[0] in s.processed
    case Test(who) =>
      who in s.peers && var p := s.peers[who];
      && p.phase.Idle? && |p.inflight.order| < INFLIGHT_QUEUE_MAX && p.download.order != []
      && p.download.order[0] !in s.processed
    case Claim(who, now) => who in s.peers && s.peers[who].phase.Tested?
    case Take(who, now) => who in s.peers && s.peers[who].phase.Claimed?
    case Drop(who) => who in s.peers && s.peers[who].phase.Idle? && s.peers[who].inflight.order != []
    case Free(who) => who in s.peers && s.peers[who].phase.Dropped?
    case Leave(who) => who in s.peers && s.peers[who].phase.Idle? && s.peers[who].inflight.order == []
    case Process(id) => true
  }

  function Next(s: System, step: Step): System
    requires Enabled(s, step)
  {
    match step
    case Connect(who) => s.(peers := s.peers[who := PeerState(EMPTY, EMPTY, Idle)])
    case Announce(who, id) => s.(peers := s.peers[who := s.peers[who].(phase := Announced(id))])
    case Enqueue(who, now) =>
      var p := s.peers[who];
      s.(peers := s.peers[who := p.(download := Added(p.download, p.phase.id, "", now), phase := Idle)])
    case Discard(who) =>
      var p := s.peers[who];
      s.(peers := s.peers[who := p.(download := Removed(p.download, p.download.order[0]))])
    case Test(who) =>
      var p := s.peers[who];
      s.(peers := s.peers[who := p.(phase := Tested(p.download.order[0]))])
    case Claim(who, now) =>
      var p := s.peers[who];
      var id := p.phase.id;
      if CanAdd(s.global, id, now) then
        s.(global := Added(s.global, id, who, now), peers := s.peers[who := p.(phase := Claimed(id))])
      else
        s.(peers := s.peers[who := p.(phase := Idle)])
    case Take(who, now) =>
      var p := s.peers[who];
      var id := p.phase.id;
      s.(peers := s.peers[who := PeerState(Removed(p.download, id), Added(p.inflight, id, "", now), Idle)])
    case Drop(who) =>
      var p := s.peers[who];
      var id := p.inflight.order[0];
      s.(peers := s.peers[who := p.(inflight := Removed(p.inflight, id), phase := Dropped(id))])
    case Free(who) =>
      var p := s.peers[who];
      var id := p.phase.id;
      s.(global := if CanRemove(s.global, id, who) then Removed(s.global, id) else s.global,
         peers := s.peers[who := p.(phase := Idle)])
    case Leave(who) => s.(peers := s.peers - {who})
    case Process(id) => s.(processed := s.processed + {id})
  }

  // ----- what every step keeps

  /** Queues agree, are disjoint and bounded, and a tested or claimed block is still at the front of
      the download queue. */
  ghost predicate PeerOK(p: PeerState) {
    && Agrees(p.download) && Agrees(p.inflight)
    && (forall id :: id in p.download.entries ==> id !in p.inflight.entries)
    && |p.download.order| <= DOWNLOAD_QUEUE_MAX && |p.inflight.order| <= INFLIGHT_QUEUE_MAX
    && (p.phase.Announced? ==>
          && p.phase.id !in p.download.entries && p.phase.id !in p.inflight.entries
          && |p.download.order| < DOWNLOAD_QUEUE_MAX)
    && (p.phase.Tested? || p.phase.Claimed? ==>
          && |p.inflight.order| < INFLIGHT_QUEUE_MAX
          && p.download.order != [] && p.download.order[0] == p.phase.id)
    && (p.phase.Dropped? ==> p.phase.id !in p.inflight.entries)
  }

  /** The block is in the peer's in-flight queue, or the peer is between its two operations on it. */
  ghost predicate Responsible(p: PeerState, id: BlockID) {
    id in p.inflight.entries || p.phase == Claimed(id) || p.phase == Dropped(id)
  }

  ghost predicate OwnedAt(s: System, id: BlockID) {
    id in s.global.entries && s.global.entries[id].who in s.peers && Responsible(s.peers[s.global.entries[id].who], id)
  }

  ghost predicate Inv(s: System) {
    && Agrees(s.global)
    && (forall who :: who in s.peers ==> PeerOK(s.peers[who]))
    && (forall id {:trigger OwnedAt(s, id)} :: id in s.global.entries ==> OwnedAt(s, id))
  }

  lemma PeerStepOK(s: System, step: Step)
    requires Inv(s) && Enabled(s, step) && !step.Process? && !step.Leave? && !step.Connect?
    ensures step.who in Next(s, step).peers && PeerOK(Next(s, step).peers[step.who])
  {
    var p := s.peers[step.who];
    match step
    case Enqueue(_, now) => AddedAgrees(p.download, p.phase.id, "", now);
    case Discard(_) => RemovedAgrees(p.download, p.download.order[0]);
    case Take(_, now) =>
      RemovedAgrees(p.download, p.phase.id);
      AddedAgrees(p.inflight, p.phase.id, "", now);
    case Drop(_) => RemovedAgrees(p.inflight, p.inflight.order[0]);
    case _ =>
  }

  lemma GlobalAgrees(s: System, step: Step)
    requires Inv(s) && Enabled(s, step)
    ensures Agrees(Next(s, step).global)
  {
    match step
    case Claim(who, now) => AddedAgrees(s.global, s.peers[who].phase.id, who, now);
    case Free(who) => RemovedAgrees(s.global, s.peers[who].phase.id);
    case _ =>
  }

  lemma StillOwned(s: System, step: Step, id: BlockID)
    requires Inv(s) && Enabled(s, step) && id in Next(s, step).global.entries
    ensures OwnedAt(Next(s, step), id)
  {
    if id in s.global.entries {
      assert OwnedAt(s, id);
    }
  }

  lemma StepKeepsInv(s: System, step: Step)
    requires Inv(s) && Enabled(s, step)
    ensures Inv(Next(s, step))
  {
    var t := Next(s, step);
    GlobalAgrees(s, step);
    forall who | who in t.peers ensures PeerOK(t.peers[who]) {
      if !step.Process? && !step.Leave? && !step.Connect? {
        PeerStepOK(s, step);
      }
    }
    forall id | id in t.global.entries ensures OwnedAt(t, id) {
      StillOwned(s, step, id);
    }
  }

  /** A run: each step is enabled where it is taken. */
  ghost predicate IsRun(s: System, steps: seq<Step>)
    decreases |steps|
  {
    steps == [] || (Enabled(s, steps[0]) && IsRun(Next(s, steps[0]), steps[1..]))
  }

  ghost function After(s: System, steps: seq<Step>): System
    requires IsRun(s, steps)
    decreases |steps|
  {
    if steps == [] then s else After(Next(s, steps[0]), steps[1..])
  }

  lemma {:induction false} RunsKeepInv(s: System, steps: seq<Step>)
    requires Inv(s) && IsRun(s, steps)
    ensures Inv(After(s, steps))
    decreases |steps|
  {
    if steps != [] {
      StepKeepsInv(s, steps[0]);
      RunsKeepInv(Next(s, steps[0]), steps[1..]);
    }
  }

  // ----- one peer's operations among the others' steps

  ghost predicate ByOthers(steps: seq<Step>, who: Address) {
    forall i :: 0 <= i < |steps| ==> steps[i].Process? || steps[i].who != who
  }

  /** What others do leaves a peer's own queues and place alone. */
  lemma {:induction false} OthersLeave(s: System, steps: seq<Step>, who: Address)
    requires IsRun(s, steps) && ByOthers(steps, who) && who in s.peers
    ensures who in After(s, steps).peers && After(s, steps).peers[who] == s.peers[who]
    decreases |steps|
  {
    if steps != [] {
      OthersLeave(Next(s, steps[0]), steps[1..], who);
    }
  }

  /**
  Requesting a block, with any steps of others after the look at the ledger and after the claim: the
  claim is made on the shared queue as it is then, and in the end the block has moved into flight.
  */
  lemma RequestAmongOthers(s: System, who: Address, now: int, first: seq<Step>, second: seq<Step>)
    requires Enabled(s, Test(who)) && IsRun(Next(s, Test(who)), first) && ByOthers(first, who)
    ensures var p, t := s.peers[who], After(Next(s, Test(who)), first);
            var id := p.download.order[0];
            && Enabled(t, Claim(who, now))
            && var u := Next(t, Claim(who, now));
               if CanAdd(t.global, id, now) then
                 && u.global == Added(t.global, id, who, now)
                 && (IsRun(u, second) && ByOthers(second, who) ==>
                       var v := After(u, second);
                       && Enabled(v, Take(who, now))
                       && var moved := PeerState(Removed(p.download, id), Added(p.inflight, id, "", now), Idle);
                          Next(v, Take(who, now)) == v.(peers := v.peers[who := moved]))
               else
                 u == t.(peers := t.peers[who := p])
  {
    OthersLeave(Next(s, Test(who)), first, who);
    var t := After(Next(s, Test(who)), first);
    var u := Next(t, Claim(who, now));
    if CanAdd(t.global, s.peers[who].download.order[0], now) && IsRun(u, second) && ByOthers(second, who) {
      OthersLeave(u, second, who);
    }
  }

  /** Giving a block up, with any steps of others in between: it is freed only if this peer still has it. */
  lemma ReleaseAmongOthers(s: System, who: Address, others: seq<Step>)
    requires Enabled(s, Drop(who)) && IsRun(Next(s, Drop(who)), others) && ByOthers(others, who)
    ensures var p, t := s.peers[who], After(Next(s, Drop(who)), others);
            var id := p.inflight.order[0];
            && Enabled(t, Free(who))
            && Next(t, Free(who)).peers == t.peers[who := p.(inflight := Removed(p.inflight, id))]
            && Next(t, Free(who)).global == if CanRemove(t.global, id, who) then Removed(t.global, id) else t.global
  {
    OthersLeave(Next(s, Drop(who)), others, who);
  }

  const START := System(EMPTY, map[], {})

  /** In every run, whoever owns a block in the shared queue is connected and answers for it. */
  lemma EveryRun(steps: seq<Step>, id: BlockID)
    requires IsRun(START, steps)
    ensures var s := After(START, steps);
            && Inv(s)
            && (id in s.global.entries ==>
                  && s.global.entries[id].who in s.peers
                  && Responsible(s.peers[s.global.entries[id].who], id))
  {
    RunsKeepInv(START, steps);
    var s := After(START, steps);
    if id in s.global.entries {
      assert OwnedAt(s, id);
    }
  }
}
