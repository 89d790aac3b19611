/** Processing of signed epoch and block votes and of full records (gossip/c_llr_callbacks.go). */
module LlrService {
  import opened LogKeys
  import opened VoteStore
  import opened LlrVoting

  datatype Outcome =
    | Processed
    | NothingToDo
    | AlreadyProcessed
    | UnknownEpoch
    | ValidatorNotExist
    | Undecided
    | HashMismatch

  /** The epoch state kept in history: its validators and the hash of its full record. */
  datatype EpochState = EpochState(group: Group, recordHash: Hash)

  datatype EpochVote = EpochVote(epoch: nat, vote: Hash, creator: nat, eventId: nat)

  /** Votes for the blocks from `start` on. `signedEpoch` is the epoch of the signing event. */
  datatype BlockVotes = BlockVotes(start: nat, epoch: nat, votes: seq<Hash>, signedEpoch: nat, creator: nat, eventId: nat) {
    function LastBlock(): nat
      requires |votes| > 0
    {
      start + |votes| - 1
    }
  }

  /** How many of the arrivals come before so many existence checks. */
  function Checks(checks: int, arrivals: nat): (n: nat)
    ensures n <= arrivals
  {
    if checks < 0 then 0 else if checks < arrivals then checks else arrivals
  }

  function Arrived(arrivals: seq<set<nat>>): set<nat> {
    if arrivals == [] then {} else Arrived(arrivals[..|arrivals| - 1]) + arrivals[|arrivals| - 1]
  }

  function InFlight(arrivals: seq<set<nat>>): multiset<nat> {
    if arrivals == [] then multiset{}
    else InFlight(arrivals[..|arrivals| - 1]) + multiset(arrivals[|arrivals| - 1])
  }

  /** These arrivals have been written, and their index updates are to come. */
  ghost predicate Received(present: set<nat>, inFlight: multiset<nat>, seen: seq<set<nat>>, present': set<nat>,
                           inFlight': multiset<nat>)
  {
    present' == present + Arrived(seen) && inFlight' == inFlight + InFlight(seen)
  }

  lemma ReceivedNone(present: set<nat>, inFlight: multiset<nat>)
    ensures Received(present, inFlight, [], present, inFlight)
  {
  }

  lemma NoneReceived(present: set<nat>, inFlight: multiset<nat>, present': set<nat>, inFlight': multiset<nat>)
    requires Received(present, inFlight, [], present', inFlight')
    ensures present' == present && inFlight' == inFlight
  {
  }

  lemma FewerLeft(s: set<nat>, n: nat)
    requires n in s
    ensures AtLeast(s, n + 1) < AtLeast(s, n)
  {
    assert n in AtLeast(s, n) && n !in AtLeast(s, n + 1);
  }

  lemma ReceivedNext(present: set<nat>, inFlight: multiset<nat>, arrivals: seq<set<nat>>, step: nat, present': set<nat>,
                     inFlight': multiset<nat>)
    requires step < |arrivals| && Received(present, inFlight, arrivals[..step], present', inFlight')
    ensures Received(present, inFlight, arrivals[..step + 1], present' + arrivals[step], inFlight' + multiset(arrivals[step]))
    ensures (forall i :: i in inFlight' ==> i in present') ==>
      forall i :: i in inFlight' + multiset(arrivals[step]) ==> i in present' + arrivals[step]
  {
    assert arrivals[..step + 1][..step] == arrivals[..step];
  }

  /** The lowest index without a record, while records are written by several threads: writing one and updating the
      index are separate steps, and other records may arrive between the existence checks of an update. */
  class Fill {
    var present: set<nat>
    var lowest: nat
    ghost const first: nat
    /** Records written whose index update is still to come. */
    ghost var inFlight: multiset<nat>

    ghost predicate Valid()
      reads this
    {
      && first <= lowest && (forall i :: first <= i < lowest ==> i in present)
      && (lowest in present ==> lowest in inFlight)
      && (forall i :: i in inFlight ==> i in present)
    }

    constructor (first: nat)
      ensures Valid() && present == {} && lowest == first && this.first == first && inFlight == multiset{}
    {
      this.first := first;
      present, lowest, inFlight := {}, first, multiset{};
    }

    method Write(n: nat)
      requires Valid()
      modifies this`present, this`inFlight
      ensures Valid() && present == old(present) + {n} && inFlight == old(inFlight) + multiset{n}
    {
      present, inFlight := present + {n}, inFlight + multiset{n};
    }

    /** updateLowestEpochToFill and updateLowestBlockToFill, for a record that is there. `arrivals` are the records that
        other threads write before each existence check. */
    method Update(n: nat, arrivals: seq<set<nat>>) returns (ghost flight: multiset<nat>)
      requires Valid() && n in present
      modifies this
      ensures Valid() && lowest >= old(lowest)
      ensures Received(old(present), old(inFlight), arrivals[..Checks(lowest - old(lowest), |arrivals|)], present, flight)
      ensures inFlight == flight - multiset{n}
      ensures n != old(lowest) ==> lowest == old(lowest)
      ensures n == old(lowest) ==> lowest > n && lowest !in present
      ensures inFlight == multiset{} ==> LowestOk(first, lowest, present)
    {
      hide Received;
      ReceivedNone(present, inFlight);
      assert arrivals[..0] == [];
      if lowest == n {
        Advance(arrivals);
      }
      flight := inFlight;
      inFlight := inFlight - multiset{n};
    }

    /** Moves the lowest index past all records that are there when it is checked. */
    method Advance(arrivals: seq<set<nat>>)
      requires lowest in present && forall i :: first <= i < lowest ==> i in present
      requires forall i :: i in inFlight ==> i in present
      modifies this
      ensures lowest > old(lowest) && lowest !in present && forall i :: first <= i < lowest ==> i in present
      ensures forall i :: i in inFlight ==> i in present
      ensures Received(old(present), old(inFlight), arrivals[..Checks(lowest - old(lowest), |arrivals|)], present, inFlight)
      ensures old(present) <= present
    {
      hide Received, AtLeast;
      ReceivedNone(present, inFlight);
      assert arrivals[..0] == [];
      var current, step := lowest + 1, 0;
      while true
        invariant 0 <= step <= |arrivals| && current > lowest == old(lowest) && old(present) <= present
        invariant Received(old(present), old(inFlight), arrivals[..step], present, inFlight)
        invariant step == Checks(current - 1 - lowest, |arrivals|)
        invariant forall i :: first <= i < current ==> i in present
        invariant forall i :: i in inFlight ==> i in present
        decreases |arrivals| - step, AtLeast(present, current)
      {
        if step < |arrivals| {
          ReceivedNext(old(present), old(inFlight), arrivals, step, present, inFlight);
          present, inFlight, step := present + arrivals[step], inFlight + multiset(arrivals[step]), step + 1;
        }
        if current !in present {
          break;
        }
        FewerLeft(present, current);
        current := current + 1;
      }
      lowest := current;
    }
  }

  lemma DecidesOne(was: map<nat, Hash>, k: Key, won: bool)
    ensures OnlyDecides(was, Decide(false, was, k, won), k.epoch, [k.v])
  {
  }

  type History = map<nat, EpochState>

  function Nexts(history: History): (es: set<nat>)
    ensures forall e: nat :: e in es <==> e > 0 && e - 1 in history
  {
    var es := set e | e in history :: e + 1;
    assert forall e: nat | e > 0 && e - 1 in history :: e in es by {
      forall e: nat | e > 0 && e - 1 in history ensures e in es {
        assert e - 1 + 1 in es;
      }
    }
    es
  }

  /** Epoch votes are for the validators of the epoch before to cast. */
  function GroupsBefore(history: History): Groups {
    map e | e in Nexts(history) :: history[e - 1].group
  }

  /** Votes for an epoch's blocks are for its own validators to cast. */
  function GroupsOf(history: History): Groups {
    map e | e in history :: history[e].group
  }

  lemma GroupBefore(history: History, epoch: nat)
    ensures epoch in GroupsBefore(history) <==> epoch > 0 && epoch - 1 in history
    ensures epoch in GroupsBefore(history) ==> GroupsBefore(history)[epoch] == history[epoch - 1].group
  {
    hide Nexts;
  }

  lemma MoreHistory(history: History, epoch: nat, state: EpochState)
    requires epoch in history ==> history[epoch].group == state.group
    ensures var more := GroupsBefore(history[epoch := state]);
      forall e :: e in GroupsBefore(history) ==> e in more && more[e] == GroupsBefore(history)[e]
    ensures var more := GroupsOf(history[epoch := state]);
      forall e :: e in GroupsOf(history) ==> e in more && more[e] == GroupsOf(history)[e]
  {
    hide GroupsBefore;
    forall e | e in GroupsBefore(history)
      ensures e in GroupsBefore(history[epoch := state]) && GroupsBefore(history[epoch := state])[e] == GroupsBefore(history)[e]
    {
      GroupBefore(history, e);
      GroupBefore(history[epoch := state], e);
    }
  }

  /** Records of decided hashes: those of the indices in `full`. */
  predicate Decided(full: set<nat>, hashes: map<nat, Hash>, results: map<nat, Hash>) {
    forall i :: i in full ==> i in hashes && i in results && hashes[i] == results[i]
  }

  function RecordHashes(history: History): map<nat, Hash> {
    map e | e in history :: history[e].recordHash
  }

  lemma StillDecided(full: set<nat>, hashes: map<nat, Hash>, results: map<nat, Hash>, more: map<nat, Hash>, start: nat,
                     votes: seq<Hash>)
    requires Decided(full, hashes, results) && OnlyDecides(results, more, start, votes)
    ensures Decided(full, hashes, more)
  {
  }

  /** The last epoch or block that each validator voted for, once it has voted for `n`. */
  function LastVote(last: map<nat, nat>, creator: nat, n: nat): map<nat, nat> {
    if n == 0 || (creator in last && last[creator] >= n) then last else last[creator := n]
  }

  /** The position of a validator in its group, if it is a member. */
  method FindValidator(g: Group, vid: nat) returns (member: bool, idx: nat)
    ensures member <==> vid in g.ids
    ensures member ==> idx == IndexIn(g, vid)
  {
    idx := 0;
    while idx < |g.ids|
      invariant 0 <= idx <= |g.ids| && vid !in g.ids[..idx]
    {
      if g.ids[idx] == vid {
        return true, idx;
      }
      idx := idx + 1;
    }
    return false, 0;
  }

  class Service {
    const epochs: Ballot
    const blocks: Ballot
    const epochFill: Fill
    const blockFill: Fill
    var history: History
    var blockRecords: map<nat, Hash>
    var epochVotesSeen: set<(nat, nat)>
    var blockVotesSeen: set<(nat, nat, nat)>
    var lastEpochVote: map<nat, nat>
    var lastBlockVote: map<nat, nat>
    /** The epochs and blocks whose record was written as a full record, and not by block processing since. */
    ghost var fullEpochs: set<nat>
    ghost var fullBlocks: set<nat>

    /** Epoch votes are counted and decided for the validators of the epoch before. */
    ghost predicate EpochVotesOk()
      reads this`history, epochs, epochs.votes
      ensures EpochVotesOk() ==> epochs.votes.Valid()
    {
      && epochs.Valid() && !epochs.byBlock && epochs.Sound(GroupsBefore(history))
      && Roomy(epochs.votes.View(), GroupsBefore(history))
    }

    ghost predicate BlockVotesOk()
      reads blocks, blocks.votes
      ensures BlockVotesOk() ==> blocks.votes.Valid()
    {
      blocks.Valid() && blocks.byBlock
    }

    ghost predicate FillsOk()
      reads this`history, this`blockRecords, epochFill, blockFill
    {
      && epochFill != blockFill && epochFill.Valid() && blockFill.Valid()
      && epochFill.present == history.Keys && blockFill.present == blockRecords.Keys
    }

    /** A full record has the hash that was decided for it. */
    ghost predicate RecordsOk()
      reads this`history, this`blockRecords, this`fullEpochs, this`fullBlocks, epochs`results, blocks`results
    {
      && Decided(fullEpochs, RecordHashes(history), epochs.results)
      && Decided(fullBlocks, blockRecords, blocks.results)
    }

    ghost predicate Valid()
      reads this`history, this`blockRecords, this`fullEpochs, this`fullBlocks
      reads epochs, epochs.votes, blocks, blocks.votes, epochFill, blockFill
      ensures Valid() ==> epochs.votes.Valid() && blocks.votes.Valid()
    {
      && epochs != blocks && epochs.votes != blocks.votes
      && EpochVotesOk() && BlockVotesOk() && FillsOk() && RecordsOk()
    }

    /** Every block tally is right for the validators of its epoch, and exactly their quorums are decided. Unlike for
        epochs this depends on the votes that arrive. */
    ghost predicate BlocksSound()
      requires BlockVotesOk()
      reads this`history, blocks, blocks.votes
    {
      blocks.Sound(GroupsOf(history))
    }

    /** Starts before genesis is applied. */
    constructor (firstEpoch: nat, firstBlock: nat)
      ensures Valid() && BlocksSound()
      ensures fresh(epochs) && fresh(epochs.votes) && fresh(blocks) && fresh(blocks.votes)
      ensures fresh(epochFill) && fresh(blockFill)
      ensures history == map[] && blockRecords == map[] && epochs.results == map[] && blocks.results == map[]
      ensures epochVotesSeen == {} && blockVotesSeen == {} && blocks.Now() == Book(map[], map[])
    {
      hide EpochVotesOk, FillsOk, RecordsOk, BlocksSound, Ballot.Valid, Ballot.Sound, Ballot.Now, Votes.Valid, Votes.View;
      var e := new Ballot(false, firstEpoch);
      var b := new Ballot(true, firstBlock);
      var ef := new Fill(firstEpoch);
      var bf := new Fill(firstBlock);
      epochs, blocks, epochFill, blockFill := e, b, ef, bf;
      history, blockRecords := map[], map[];
      epochVotesSeen, blockVotesSeen := {}, {};
      lastEpochVote, lastBlockVote := map[], map[];
      fullEpochs, fullBlocks := {}, {};
      new;
      StartOk();
    }

    lemma StartOk()
      requires epochs.Valid() && blocks.Valid() && !epochs.byBlock && blocks.byBlock && epochFill != blockFill
      requires epochs.Now() == Book(map[], map[]) && forall groups :: epochs.Sound(groups) && blocks.Sound(groups)
      requires history == map[] && blockRecords == map[] && fullEpochs == {} && fullBlocks == {}
      requires epochFill.Valid() && blockFill.Valid() && epochFill.present == {} && blockFill.present == {}
      ensures EpochVotesOk() && FillsOk() && RecordsOk() && BlockVotesOk() && BlocksSound()
    {
      hide Ballot.Valid, Ballot.Sound, Fill.Valid, Votes.View, Votes.Valid;
    }

    /** The ways an epoch vote is refused. */
    function EpochOutcome(ev: EpochVote): (out: Outcome)
      reads this`history, this`epochVotesSeen
      ensures out == NothingToDo <==> ev.epoch == 0
      ensures out == AlreadyProcessed <==> ev.epoch > 0 && (ev.epoch, ev.eventId) in epochVotesSeen
      ensures out == Processed ==> ev.epoch - 1 in history && ev.creator in history[ev.epoch - 1].group.ids
      ensures out == UnknownEpoch ==> ev.epoch > 0 && ev.epoch - 1 !in history
      ensures out == ValidatorNotExist ==> ev.epoch - 1 in history && ev.creator !in history[ev.epoch - 1].group.ids
    {
      if ev.epoch == 0 then NothingToDo
      else if (ev.epoch, ev.eventId) in epochVotesSeen then AlreadyProcessed
      else if ev.epoch - 1 !in history then UnknownEpoch
      else if ev.creator !in history[ev.epoch - 1].group.ids then ValidatorNotExist
      else Processed
    }

    /** The validators of an epoch, none if its state is not known. */
    function GroupIn(epoch: int): Group
      reads this`history
    {
      if epoch in history then history[epoch].group else Group([], [])
    }

    /** Whether an epoch vote is refused; otherwise, the place of its signer in the group of the epoch before. */
    method CheckEpochVote(ev: EpochVote) returns (out: Outcome, idx: nat)
      ensures out == EpochOutcome(ev)
      ensures out == Processed ==>
        ev.creator in GroupIn(ev.epoch - 1).ids && idx == IndexIn(GroupIn(ev.epoch - 1), ev.creator)
    {
      if ev.epoch == 0 {
        return NothingToDo, 0;
      }
      if (ev.epoch, ev.eventId) in epochVotesSeen {
        return AlreadyProcessed, 0;
      }
      if ev.epoch - 1 !in history {
        return UnknownEpoch, 0;
      }
      var known, i := FindValidator(history[ev.epoch - 1].group, ev.creator);
      return if known then Processed else ValidatorNotExist, i;
    }

    /** Counts one signed epoch vote with the validators of the epoch before. */
    method ProcessEpochVote(ev: EpochVote, onRead: set<Key>, onWrite: set<Key>) returns (out: Outcome)
      requires Valid()
      modifies this`epochVotesSeen, this`lastEpochVote, epochs, epochs.votes
      ensures Valid() && (old(BlocksSound()) ==> BlocksSound()) && out == old(EpochOutcome(ev))
      ensures out != Processed ==> unchanged(this, epochs, epochs.votes)
      ensures out == Processed ==> epochVotesSeen == old(epochVotesSeen) + {(ev.epoch, ev.eventId)}
      ensures out == Processed ==> lastEpochVote == LastVote(old(lastEpochVote), ev.creator, ev.epoch)
      ensures out == Processed ==>
        EpochVoted(old(epochs.Now()), old(epochs.results), ev, GroupIn(ev.epoch - 1), epochs.Now(), epochs.results)
      ensures epochs.lowestToDecide >= old(epochs.lowestToDecide)
    {
      hide Valid, EpochVoted, BlocksSound, Ballot.Now, IndexIn, GroupIn, LastVote;
      var idx;
      out, idx := CheckEpochVote(ev);
      if out == Processed {
        AcceptEpochVote(ev, idx, onRead, onWrite);
        MarkEpochVote(ev);
      }
    }

    method MarkEpochVote(ev: EpochVote)
      modifies this`epochVotesSeen, this`lastEpochVote
      ensures epochVotesSeen == old(epochVotesSeen) + {(ev.epoch, ev.eventId)}
      ensures lastEpochVote == LastVote(old(lastEpochVote), ev.creator, ev.epoch)
    {
      epochVotesSeen := epochVotesSeen + {(ev.epoch, ev.eventId)};
      if ev.epoch > (if ev.creator in lastEpochVote then lastEpochVote[ev.creator] else 0) {
        lastEpochVote := lastEpochVote[ev.creator := ev.epoch];
      }
    }

    method AcceptEpochVote(ev: EpochVote, idx: nat, onRead: set<Key>, onWrite: set<Key>)
      requires Valid() && ev.epoch > 0 && ev.epoch - 1 in history
      requires ev.creator in GroupIn(ev.epoch - 1).ids && idx == IndexIn(GroupIn(ev.epoch - 1), ev.creator)
      modifies epochs, epochs.votes
      ensures Valid() && (old(BlocksSound()) ==> BlocksSound()) && epochs.lowestToDecide >= old(epochs.lowestToDecide)
      ensures EpochVoted(old(epochs.Now()), old(epochs.results), ev, GroupIn(ev.epoch - 1), epochs.Now(), epochs.results)
    {
      hide EpochVotesOk, BlockVotesOk, FillsOk, OnlyDecides, Decided, RecordHashes, EpochVoted, BlocksSound, Ballot.Now,
        IndexIn;
      CountEpochVote(ev, idx, GroupIn(ev.epoch - 1), onRead, onWrite);
      StillDecided(fullEpochs, RecordHashes(history), old(epochs.results), epochs.results, ev.epoch, [ev.vote]);
    }

    method CountEpochVote(ev: EpochVote, idx: nat, g: Group, onRead: set<Key>, onWrite: set<Key>)
      requires EpochVotesOk() && ev.epoch > 0 && ev.epoch - 1 in history && history[ev.epoch - 1].group == g
      requires ev.creator in g.ids && idx == IndexIn(g, ev.creator)
      modifies epochs, epochs.votes
      ensures EpochVotesOk() && epochs.lowestToDecide >= old(epochs.lowestToDecide)
      ensures OnlyDecides(old(epochs.results), epochs.results, ev.epoch, [ev.vote])
      ensures EpochVoted(old(epochs.Now()), old(epochs.results), ev, g, epochs.Now(), epochs.results)
    {
      hide AllRight, ResultsOk, LowestOk, Votes.Valid, Votes.View, OnlyDecides, Decide, Roomy, WithVote, GroupsBefore, Room,
        Ballot.Valid, IndexIn;
      var k := Key(0, ev.epoch, ev.vote);
      ghost var groups, was, b := GroupsBefore(history), epochs.results, epochs.Now();
      GroupBefore(history, ev.epoch);
      RoomyStep(b, groups, k, ev.creator);
      epochs.Process(k, idx, g, ev.creator, onRead, onWrite);
      AlikeKeeps(false, b, groups, was, k, g, ev.creator);
      DecidesOne(was, k, epochs.votes.View()[k].weight >= g.Quorum());
      EpochDecision(was, k, epochs.votes.View()[k].weight >= g.Quorum());
    }

    /** The ways block votes are refused. */
    function BlocksOutcome(bvs: BlockVotes): (out: Outcome)
      reads this`history, this`blockVotesSeen
      ensures out == NothingToDo <==> |bvs.votes| == 0
      ensures out == AlreadyProcessed <==>
        |bvs.votes| > 0 && (bvs.epoch, bvs.start + |bvs.votes| - 1, bvs.eventId) in blockVotesSeen
      ensures out == Processed ==> bvs.signedEpoch in history && bvs.creator in history[bvs.signedEpoch].group.ids
      ensures out == UnknownEpoch ==> bvs.signedEpoch !in history
      ensures out == ValidatorNotExist ==>
        bvs.signedEpoch in history && bvs.creator !in history[bvs.signedEpoch].group.ids
    {
      if |bvs.votes| == 0 then NothingToDo
      else if (bvs.epoch, bvs.LastBlock(), bvs.eventId) in blockVotesSeen then AlreadyProcessed
      else if bvs.signedEpoch !in history then UnknownEpoch
      else if bvs.creator !in history[bvs.signedEpoch].group.ids then ValidatorNotExist
      else Processed
    }

    /** Whether block votes are refused; otherwise, the place of their signer in the group it signed with. */
    method CheckBlockVotes(bvs: BlockVotes) returns (out: Outcome, idx: nat)
      ensures out == BlocksOutcome(bvs)
      ensures out == Processed ==>
        bvs.creator in GroupIn(bvs.signedEpoch).ids && idx == IndexIn(GroupIn(bvs.signedEpoch), bvs.creator)
    {
      if |bvs.votes| == 0 {
        return NothingToDo, 0;
      }
      if (bvs.epoch, bvs.LastBlock(), bvs.eventId) in blockVotesSeen {
        return AlreadyProcessed, 0;
      }
      if bvs.signedEpoch !in history {
        return UnknownEpoch, 0;
      }
      var known, i := FindValidator(history[bvs.signedEpoch].group, bvs.creator);
      return if known then Processed else ValidatorNotExist, i;
    }

    /** Counts the block votes of one event, block by block. They are weighed by the group of the epoch the event was
        signed in, and counted under the epoch they are for: the tallies of that epoch stay right if and only if the two
        groups agree on the signer. A signer whose index is beyond a stored bitmap makes the original panic. */
    method ProcessBlockVotes(bvs: BlockVotes, onRead: set<Key>, onWrite: set<Key>) returns (out: Outcome)
      requires Valid()
      requires bvs.creator in GroupIn(bvs.signedEpoch).ids ==>
        AllRoom(blocks.votes.View(), bvs.start, bvs.epoch, bvs.votes, IndexIn(GroupIn(bvs.signedEpoch), bvs.creator))
      modifies this`blockVotesSeen, this`lastBlockVote, blocks, blocks.votes
      ensures Valid() && out == old(BlocksOutcome(bvs))
      ensures out != Processed ==> unchanged(this, blocks, blocks.votes)
      ensures out == Processed ==> blockVotesSeen == old(blockVotesSeen) + {(bvs.epoch, bvs.LastBlock(), bvs.eventId)}
      ensures out == Processed ==> lastBlockVote == LastVote(old(lastBlockVote), bvs.creator, bvs.LastBlock())
      ensures out == Processed ==>
        BlocksVoted(old(blocks.Now()), old(blocks.results), bvs, GroupIn(bvs.signedEpoch), blocks.Now(), blocks.results)
      ensures out == Processed ==>
        RightIfAgreed(old(blocks.Now()), bvs, GroupIn(bvs.signedEpoch), GroupIn(bvs.epoch), blocks.Now())
      ensures Alike(GroupIn(bvs.signedEpoch), GroupIn(bvs.epoch), bvs.creator) ==> old(BlocksSound()) ==> BlocksSound()
      ensures blocks.lowestToDecide >= old(blocks.lowestToDecide)
    {
      hide Valid, BlocksVoted, AllRoom, Alike, RightIfAgreed, BlocksSound, Ballot.Now, IndexIn, GroupIn, LastVote;
      var idx;
      out, idx := CheckBlockVotes(bvs);
      if out == Processed {
        AcceptBlockVotes(bvs, idx, GroupIn(bvs.signedEpoch), onRead, onWrite);
        MarkBlockVotes(bvs);
      }
    }

    method MarkBlockVotes(bvs: BlockVotes)
      requires bvs.votes != []
      modifies this`blockVotesSeen, this`lastBlockVote
      ensures blockVotesSeen == old(blockVotesSeen) + {(bvs.epoch, bvs.LastBlock(), bvs.eventId)}
      ensures lastBlockVote == LastVote(old(lastBlockVote), bvs.creator, bvs.LastBlock())
    {
      blockVotesSeen := blockVotesSeen + {(bvs.epoch, bvs.LastBlock(), bvs.eventId)};
      if bvs.LastBlock() > (if bvs.creator in lastBlockVote then lastBlockVote[bvs.creator] else 0) {
        lastBlockVote := lastBlockVote[bvs.creator := bvs.LastBlock()];
      }
    }

    method AcceptBlockVotes(bvs: BlockVotes, idx: nat, s: Group, onRead: set<Key>, onWrite: set<Key>)
      requires Valid() && bvs.creator in s.ids && idx == IndexIn(s, bvs.creator) && bvs.votes != []
      requires AllRoom(blocks.votes.View(), bvs.start, bvs.epoch, bvs.votes, idx)
      modifies blocks, blocks.votes
      ensures Valid() && blocks.lowestToDecide >= old(blocks.lowestToDecide)
      ensures BlocksVoted(old(blocks.Now()), old(blocks.results), bvs, s, blocks.Now(), blocks.results)
      ensures RightIfAgreed(old(blocks.Now()), bvs, s, GroupIn(bvs.epoch), blocks.Now())
      ensures Alike(s, GroupIn(bvs.epoch), bvs.creator) ==> old(BlocksSound()) ==> BlocksSound()
    {
      hide EpochVotesOk, FillsOk, OnlyDecides, AllRoom, Decided, RecordHashes, EachVoted, Alike, RightIfAgreed, BlocksSound,
        BlockVotesOk, Ballot.Now, IndexIn, GroupIn;
      CountBlockVotes(bvs, idx, s, onRead, onWrite);
      StillDecided(fullBlocks, blockRecords, old(blocks.results), blocks.results, bvs.start, bvs.votes);
    }

    method CountBlockVotes(bvs: BlockVotes, idx: nat, s: Group, onRead: set<Key>, onWrite: set<Key>)
      requires BlockVotesOk() && bvs.creator in s.ids && idx == IndexIn(s, bvs.creator) && bvs.votes != []
      requires AllRoom(blocks.votes.View(), bvs.start, bvs.epoch, bvs.votes, idx)
      modifies blocks, blocks.votes
      ensures BlockVotesOk() && blocks.lowestToDecide >= old(blocks.lowestToDecide)
      ensures BlocksVoted(old(blocks.Now()), old(blocks.results), bvs, s, blocks.Now(), blocks.results)
      ensures RightIfAgreed(old(blocks.Now()), bvs, s, GroupIn(bvs.epoch), blocks.Now())
      ensures Alike(s, GroupIn(bvs.epoch), bvs.creator) ==> old(BlocksSound()) ==> BlocksSound()
    {
      hide OnlyDecides, AllRoom, EachVoted, RightIfAgreed, Ballot.Valid, Ballot.Sound, GroupsOf, Votes.Valid, Votes.View,
        IndexIn, Agree;
      GroupOf(history, bvs.epoch);
      blocks.ProcessEach(bvs.start, bvs.epoch, bvs.votes, idx, s, bvs.creator, GroupsOf(history), onRead, onWrite);
      SoAgreed(old(blocks.Now()), bvs, s, GroupIn(bvs.epoch), blocks.Now());
      if bvs.epoch !in history { NotInNone(s, bvs.creator); }
    }

    /** The unlocked part of ProcessFullEpochRecord: only a record with the decided hash, for an epoch without one,
        is written. */
    method WriteEpochRecord(epoch: nat, record: EpochState) returns (out: Outcome)
      requires Valid()
      modifies this`history, this`fullEpochs, epochFill
      ensures Valid() && (old(BlocksSound()) ==> BlocksSound())
      ensures out ==
        if epoch in old(history) then AlreadyProcessed
        else if epoch !in epochs.results then Undecided
        else if record.recordHash != epochs.results[epoch] then HashMismatch
        else Processed
      ensures history == if out == Processed then old(history)[epoch := record] else old(history)
      ensures fullEpochs == if out == Processed then old(fullEpochs) + {epoch} else old(fullEpochs)
      ensures out == Processed ==> epochFill.inFlight == old(epochFill.inFlight) + multiset{epoch}
      ensures out != Processed ==> unchanged(epochFill)
    {
      hide EpochVotesOk, BlockVotesOk, FillsOk, BlocksSound, RecordHashes, Decided;
      if epoch in history {
        return AlreadyProcessed;
      }
      if epoch !in epochs.results {
        return Undecided;
      }
      if record.recordHash != epochs.results[epoch] {
        return HashMismatch;
      }
      OneMoreEpoch(fullEpochs, history, epochs.results, epoch, record);
      PutEpochState(epoch, record);
      fullEpochs := fullEpochs + {epoch};
      return Processed;
    }

    /** Stores the state of an epoch; that of a known epoch has the same validators. */
    method PutEpochState(epoch: nat, state: EpochState)
      requires EpochVotesOk() && BlockVotesOk() && FillsOk()
      requires epoch in history ==> history[epoch].group == state.group
      modifies this`history, epochFill
      ensures EpochVotesOk() && FillsOk() && (old(BlocksSound()) ==> BlocksSound())
      ensures history == old(history)[epoch := state]
      ensures epochFill.inFlight == old(epochFill.inFlight) + multiset{epoch}
    {
      hide Ballot.Valid, Ballot.Sound, Votes.Valid, Votes.View, GroupsBefore, GroupsOf, Roomy, Fill.Valid;
      StillSound(epoch, state);
      history := history[epoch := state];
      epochFill.Write(epoch);
    }

    lemma StillSound(epoch: nat, state: EpochState)
      requires EpochVotesOk() && BlockVotesOk() && (epoch in history ==> history[epoch].group == state.group)
      ensures var more := GroupsBefore(history[epoch := state]);
        epochs.Sound(more) && Roomy(epochs.votes.View(), more)
      ensures BlocksSound() ==> blocks.Sound(GroupsOf(history[epoch := state]))
    {
      hide GroupsBefore, GroupsOf, ResultsOk, RightAt, Ballot.Valid;
      MoreHistory(history, epoch, state);
      MoreGroups(false, epochs.Now(), GroupsBefore(history), GroupsBefore(history[epoch := state]), epochs.results);
      if BlocksSound() {
        MoreGroups(true, blocks.Now(), GroupsOf(history), GroupsOf(history[epoch := state]), blocks.results);
      }
    }

    /** The locked part, for an epoch record and equally after block processing stored one. */
    method UpdateLowestEpochToFill(epoch: nat)
      requires Valid() && epoch in history
      modifies epochFill
      ensures Valid() && epochFill.lowest >= old(epochFill.lowest)
      ensures epochFill.inFlight == old(epochFill.inFlight) - multiset{epoch}
      ensures epochFill.inFlight == multiset{} ==> LowestOk(epochFill.first, epochFill.lowest, history.Keys)
    {
      hide EpochVotesOk, BlockVotesOk, RecordsOk;
      ghost var flight := epochFill.Update(epoch, []);
      NoneReceived(old(epochFill.present), old(epochFill.inFlight), epochFill.present, flight);
    }

    method WriteBlockRecord(block: nat, recordHash: Hash) returns (out: Outcome)
      requires Valid()
      modifies this`blockRecords, this`fullBlocks, blockFill
      ensures Valid()
      ensures out ==
        if block in old(blockRecords) then AlreadyProcessed
        else if block !in blocks.results then Undecided
        else if recordHash != blocks.results[block] then HashMismatch
        else Processed
      ensures blockRecords == if out == Processed then old(blockRecords)[block := recordHash] else old(blockRecords)
      ensures fullBlocks == if out == Processed then old(fullBlocks) + {block} else old(fullBlocks)
      ensures out == Processed ==> blockFill.inFlight == old(blockFill.inFlight) + multiset{block}
      ensures out != Processed ==> unchanged(blockFill)
    {
      hide EpochVotesOk, BlockVotesOk, FillsOk, RecordHashes, Decided;
      if block in blockRecords {
        return AlreadyProcessed;
      }
      if block !in blocks.results {
        return Undecided;
      }
      if recordHash != blocks.results[block] {
        return HashMismatch;
      }
      OneMoreBlock(fullBlocks, blockRecords, blocks.results, block, recordHash);
      PutBlock(block, recordHash);
      fullBlocks := fullBlocks + {block};
      return Processed;
    }

    method PutBlock(block: nat, recordHash: Hash)
      requires FillsOk()
      modifies this`blockRecords, blockFill
      ensures FillsOk() && blockRecords == old(blockRecords)[block := recordHash]
      ensures blockFill.inFlight == old(blockFill.inFlight) + multiset{block}
    {
      blockRecords := blockRecords[block := recordHash];
      blockFill.Write(block);
    }

    method UpdateLowestBlockToFill(block: nat)
      requires Valid() && block in blockRecords
      modifies blockFill
      ensures Valid() && blockFill.lowest >= old(blockFill.lowest)
      ensures blockFill.inFlight == old(blockFill.inFlight) - multiset{block}
      ensures blockFill.inFlight == multiset{} ==> LowestOk(blockFill.first, blockFill.lowest, blockRecords.Keys)
    {
      hide EpochVotesOk, BlockVotesOk, RecordsOk;
      ghost var flight := blockFill.Update(block, []);
      NoneReceived(old(blockFill.present), old(blockFill.inFlight), blockFill.present, flight);
    }

    /** Block processing stores the state of the epoch it starts; it does not change a known epoch's validators. What it
        stores in place of a full record is its own. */
    method StoreEpochState(epoch: nat, state: EpochState)
      requires Valid()
      requires epoch in history ==> history[epoch].group == state.group
      modifies this`history, this`fullEpochs, epochFill
      ensures Valid() && (old(BlocksSound()) ==> BlocksSound())
      ensures history == old(history)[epoch := state] && fullEpochs == old(fullEpochs) - {epoch}
      ensures epochFill.inFlight == old(epochFill.inFlight) + multiset{epoch}
    {
      hide EpochVotesOk, BlockVotesOk, FillsOk, BlocksSound, RecordHashes, Decided;
      OneLessEpoch(fullEpochs, history, epochs.results, epoch, state);
      PutEpochState(epoch, state);
      fullEpochs := fullEpochs - {epoch};
    }

    /** Block processing stores each block it has executed. */
    method StoreBlock(block: nat, recordHash: Hash)
      requires Valid()
      modifies this`blockRecords, this`fullBlocks, blockFill
      ensures Valid()
      ensures blockRecords == old(blockRecords)[block := recordHash] && fullBlocks == old(fullBlocks) - {block}
      ensures blockFill.inFlight == old(blockFill.inFlight) + multiset{block}
    {
      hide EpochVotesOk, BlockVotesOk, FillsOk, RecordHashes, Decided;
      OneLessBlock(fullBlocks, blockRecords, blocks.results, block, recordHash);
      PutBlock(block, recordHash);
      fullBlocks := fullBlocks - {block};
    }

    /** A decided epoch was voted for by members of the group of the epoch before that weigh at least a third plus one,
        so by no coalition of a third alone. */
    lemma DecidedByMembers(epoch: nat, coalition: set<nat>) returns (k: Key)
      requires Valid() && epoch in epochs.results
      ensures k.epoch == epoch && k.v == epochs.results[epoch] && k in epochs.voted && epoch > 0 && epoch - 1 in history
      ensures var g, voters := history[epoch - 1].group, epochs.voted[k];
        && (forall vid :: vid in voters ==> vid in g.ids)
        && WeightOf(g, voters) >= g.Total() / 3 + 1
        && (WeightOf(g, coalition) <= g.Total() / 3 ==> exists vid :: vid in voters && vid !in coalition)
    {
      hide AllRight, ResultsOk, GroupsBefore, WeightOf, Ballot.Valid, Roomy;
      k := DecidedByVoters(false, epochs.Now(), GroupsBefore(history), epochs.results, epoch, coalition);
      GroupBefore(history, k.epoch);
    }

    /** An epoch is decided just when more than a third of the group of the epoch before, by weight, voted for one record. */
    lemma EpochDecidedIff(epoch: nat)
      requires Valid()
      ensures epoch in epochs.results <==>
        exists k: Key :: k.epoch == epoch && k in epochs.voted && ThirdOf(history, epoch - 1, epochs.voted[k])
    {
      hide AllRight, ResultsOk, GroupsBefore, AboveThird, Ballot.Valid, Roomy;
      DecidedIff(false, epochs.Now(), GroupsBefore(history), epochs.results, epoch);
      GroupBefore(history, epoch);
      forall k: Key | k.epoch == epoch
        ensures VotedAboveThird(epochs.Now(), GroupsBefore(history), k) <==>
          k in epochs.voted && ThirdOf(history, epoch - 1, epochs.voted[k])
      {
      }
    }

    /** A block is decided just when more than a third of an epoch's group voted for one record, as long as the tallies are
        sound. */
    lemma BlockDecidedIff(block: nat)
      requires Valid() && BlocksSound()
      ensures block in blocks.results <==>
        exists k: Key :: k.block == block && k in blocks.voted && ThirdOf(history, k.epoch, blocks.voted[k])
    {
      hide AllRight, ResultsOk, GroupsOf, AboveThird, Ballot.Valid, Roomy;
      DecidedIff(true, blocks.Now(), GroupsOf(history), blocks.results, block);
      forall k: Key
        ensures VotedAboveThird(blocks.Now(), GroupsOf(history), k) <==>
          k in blocks.voted && ThirdOf(history, k.epoch, blocks.voted[k])
      {
        GroupOf(history, k.epoch);
      }
    }

    /** A decided block was voted for by members of the group of its voters' epoch, as long as the tallies are sound. */
    lemma BlockDecidedByMembers(block: nat, coalition: set<nat>) returns (k: Key)
      requires Valid() && BlocksSound() && block in blocks.results
      ensures k.block == block && k.v == blocks.results[block] && k in blocks.voted && k.epoch in history
      ensures var g, voters := history[k.epoch].group, blocks.voted[k];
        && (forall vid :: vid in voters ==> vid in g.ids)
        && WeightOf(g, voters) >= g.Total() / 3 + 1
        && (WeightOf(g, coalition) <= g.Total() / 3 ==> exists vid :: vid in voters && vid !in coalition)
    {
      hide AllRight, ResultsOk, GroupsOf, WeightOf, Ballot.Valid, Roomy;
      k := DecidedByVoters(true, blocks.Now(), GroupsOf(history), blocks.results, block, coalition);
      GroupOf(history, k.epoch);
    }
  }

  /** These validators weigh more than a third of an epoch's group. */
  ghost predicate ThirdOf(history: History, epoch: int, voters: set<nat>) {
    epoch in history && AboveThird(history[epoch].group, voters)
  }

  /** What an accepted epoch vote does: it is counted with its creator's weight in the group, and decides if that makes a
      quorum. Nothing that was decided changes. */
  ghost predicate EpochVoted(was: Book, decided: map<nat, Hash>, ev: EpochVote, g: Group, now: Book,
                             results: map<nat, Hash>)
  {
    var k := Key(0, ev.epoch, ev.vote);
    && OnlyDecides(decided, results, ev.epoch, [ev.vote]) && ev.creator in g.ids
    && Room(was.view, k, IndexIn(g, ev.creator)) && now == WithVote(was, k, g, ev.creator)
    && (now.view[k].weight >= g.Quorum() ==> ev.epoch in results)
  }

  lemma EpochDecision(was: map<nat, Hash>, k: Key, won: bool)
    ensures won ==> k.epoch in Decide(false, was, k, won)
  {
  }

  lemma GroupOf(history: History, epoch: nat)
    ensures epoch in GroupsOf(history) <==> epoch in history
    ensures epoch in history ==> GroupsOf(history)[epoch] == history[epoch].group
  {
  }

  /** What accepted block votes do: each is counted with its signer's weight in group `s`, and nothing that was decided
      changes. */
  ghost predicate BlocksVoted(was: Book, decided: map<nat, Hash>, bvs: BlockVotes, s: Group, now: Book,
                              results: map<nat, Hash>)
  {
    && OnlyDecides(decided, results, bvs.start, bvs.votes)
    && bvs.creator in s.ids && AllRoom(was.view, bvs.start, bvs.epoch, bvs.votes, IndexIn(s, bvs.creator))
    && EachVoted(was, bvs.start, bvs.epoch, bvs.votes, s, bvs.creator, now)
  }

  lemma NotInNone(s: Group, vid: nat)
    ensures !Agree(s, Group([], []), vid)
  {
  }

  /** The first votes of a signer keep the tallies of their epoch right for group `g` if and only if it has the same index
      and weight there as in the group `s` it signed with. */
  ghost predicate RightIfAgreed(was: Book, bvs: BlockVotes, s: Group, g: Group, now: Book) {
    EpochRight(was, bvs.epoch, g)
    && (forall k :: IsVoted(k, bvs.start, bvs.epoch, bvs.votes) ==> bvs.creator !in VotedFor(was, k))
    ==> (EpochRight(now, bvs.epoch, g) <==> Agree(s, g, bvs.creator))
  }

  lemma SoAgreed(was: Book, bvs: BlockVotes, s: Group, g: Group, now: Book)
    requires bvs.creator in s.ids && AllRoom(was.view, bvs.start, bvs.epoch, bvs.votes, IndexIn(s, bvs.creator))
    requires was.view.Keys == was.voted.Keys && bvs.votes != []
    requires EachVoted(was, bvs.start, bvs.epoch, bvs.votes, s, bvs.creator, now)
    ensures RightIfAgreed(was, bvs, s, g, now)
  {
    hide EachVoted, AllRoom, Agree, EpochRight, VotedFor, IsVoted;
    if EpochRight(was, bvs.epoch, g)
      && forall k :: IsVoted(k, bvs.start, bvs.epoch, bvs.votes) ==> bvs.creator !in VotedFor(was, k)
    {
      FirstVotes(was, bvs.start, bvs.epoch, bvs.votes, s, g, bvs.creator, now);
    }
  }

  lemma OneMoreEpoch(full: set<nat>, history: History, results: map<nat, Hash>, epoch: nat, record: EpochState)
    requires Decided(full, RecordHashes(history), results) && epoch in results && record.recordHash == results[epoch]
    ensures Decided(full + {epoch}, RecordHashes(history[epoch := record]), results)
  {
  }

  lemma OneLessEpoch(full: set<nat>, history: History, results: map<nat, Hash>, epoch: nat, state: EpochState)
    requires Decided(full, RecordHashes(history), results)
    ensures Decided(full - {epoch}, RecordHashes(history[epoch := state]), results)
  {
  }

  lemma OneMoreBlock(full: set<nat>, records: map<nat, Hash>, results: map<nat, Hash>, block: nat, recordHash: Hash)
    requires Decided(full, records, results) && block in results && recordHash == results[block]
    ensures Decided(full + {block}, records[block := recordHash], results)
  {
  }

  lemma OneLessBlock(full: set<nat>, records: map<nat, Hash>, results: map<nat, Hash>, block: nat, recordHash: Hash)
    requires Decided(full, records, results)
    ensures Decided(full - {block}, records[block := recordHash], results)
  {
  }

  // ---------- when the groups differ ----------

  function PairOf(one: uint32, other: uint32): (g: Group)
    requires one + other < 1000
    ensures g.ids == [1, 2] && g.weights == [one, other] && g.Total() == one + other
    ensures WeightOf(g, {1}) == one && WeightOf(g, {1, 2}) == one + other
  {
    assert [one, other][..1] == [one] && [one][..0] == [];
    assert Sum([one]) == one;
    var g := Group([1, 2], [one, other]);
    assert Positions(g, {1}) == {0} && Positions(g, {1, 2}) == {0, 1};
    assert SumIn([one], {0}) == one && SumIn([one], {0, 1}) == one;
    g
  }

  /** What is left of an event with a single vote. */
  lemma OneVote(was: Book, k: Key, s: Group, vid: nat, now: Book)
    requires vid in s.ids && AllRoom(was.view, k.block, k.epoch, [k.v], IndexIn(s, vid))
    requires EachVoted(was, k.block, k.epoch, [k.v], s, vid, now)
    ensures Room(was.view, k, IndexIn(s, vid)) && now == WithVote(was, k, s, vid)
  {
    hide Room, IndexIn, WithVote;
    assert IsVoted(k, k.block, k.epoch, [k.v]);
    WithVoteIs(was, k, s, vid);
    var after := WithVote(was, k, s, vid);
    forall x ensures SameAt(after, now, x) {
      if x != k { assert !IsVoted(x, k.block, k.epoch, [k.v]); }
    }
    SameBooks(after, now);
  }

  lemma SameBooks(b: Book, b': Book)
    requires forall k :: SameAt(b, b', k)
    ensures b == b'
  {
    forall k ensures (k in b.view <==> k in b'.view) && (k in b.view ==> b.view[k] == b'.view[k])
      ensures (k in b.voted <==> k in b'.voted) && (k in b.voted ==> b.voted[k] == b'.voted[k])
    {
      assert SameAt(b, b', k);
    }
    assert b.view == b'.view && b.voted == b'.voted;
  }

  lemma RoomForOne(view: map<Key, Tally>, k: Key, i: nat)
    requires Room(view, k, i)
    ensures AllRoom(view, k.block, k.epoch, [k.v], i)
  {
  }

  lemma InPair(one: uint32, other: uint32)
    requires one + other < 1000
    ensures IndexIn(PairOf(one, other), 1) == 0 && IndexIn(PairOf(one, other), 2) == 1
  {
  }

  /** The first validator's vote in an empty book. */
  lemma FirstOfPair(k: Key, one: uint32, other: uint32)
    requires one + other < 1000
    ensures var b := WithVote(Book(map[], map[]), k, PairOf(one, other), 1);
      && b.view.Keys == {k} && b.voted == map[k := {1}] && b.view[k].weight == one
      && Room(b.view, k, 1) && !Has(b.view[k].voters, 1)
  {
    hide Has, Put, Right, PairOf, IndexIn;
    var g, none := PairOf(one, other), Book(map[], map[]);
    InPair(one, other);
    SameVote(none, k, g, g, 1);
    RightVote(none, k, g, g, 1);
    var b := WithVote(none, k, g, 1);
    PutHas(NewBitmap(2), 0, 1);
    assert b.voted[k] == {1};
    RightWeight(b.view[k], g, {1});
  }

  lemma RightWeight(t: Tally, g: Group, voted: set<nat>)
    requires Right(t, g, voted)
    ensures t.weight == WeightOf(g, voted)
  {
  }

  /** The second validator's vote, with its weight in another group. */
  lemma SecondOfPair(b: Book, k: Key, one: uint32, other: uint32)
    requires one + other < 1000 && b.view.Keys == {k} && b.voted == map[k := {1}]
    requires Room(b.view, k, 1) && !Has(b.view[k].voters, 1) && b.view[k].weight < 1000
    ensures IndexIn(PairOf(one, other), 2) == 1
    ensures var now := WithVote(b, k, PairOf(one, other), 2);
      now.view.Keys == {k} && now.voted == map[k := {1, 2}] && now.view[k].weight == b.view[k].weight + other
  {
    hide Has, Put;
    InPair(one, other);
    assert {1} + {2} == {1, 2};
  }

  /** An event with a single block vote, signed with group `g`. */
  method CastOne(s: Service, k: Key, signedEpoch: nat, creator: nat, eventId: nat, ghost g: Group)
    requires s.Valid() && s.GroupIn(signedEpoch) == g && creator in g.ids
    requires Room(s.blocks.votes.View(), k, IndexIn(g, creator)) && (k.epoch, k.block, eventId) !in s.blockVotesSeen
    modifies s`blockVotesSeen, s`lastBlockVote, s.blocks, s.blocks.votes
    ensures s.Valid() && s.blocks.Now() == WithVote(old(s.blocks.Now()), k, g, creator)
    ensures s.blockVotesSeen == old(s.blockVotesSeen) + {(k.epoch, k.block, eventId)}
  {
    hide Service.Valid, Service.BlocksSound, Ballot.Now, WithVote, Room, AllRoom, EachVoted, OnlyDecides, RightIfAgreed,
      Alike, IndexIn;
    RoomForOne(s.blocks.votes.View(), k, IndexIn(g, creator));
    ghost var was := s.blocks.Now();
    var out := s.ProcessBlockVotes(BlockVotes(k.block, k.epoch, [k.v], signedEpoch, creator, eventId), {}, {});
    OneVote(was, k, g, creator, s.blocks.Now());
  }

  method PairEpochs(h: Hash) returns (s: Service)
    ensures fresh(s) && fresh(s.blocks) && fresh(s.blocks.votes)
    ensures s.Valid() && s.history.Keys == {1, 2} && s.blockVotesSeen == {}
    ensures s.history[1].group == s.GroupIn(1) == PairOf(5, 5) && s.history[2].group == s.GroupIn(2) == PairOf(7, 7)
    ensures s.blocks.Now() == Book(map[], map[])
  {
    hide Service.Valid, Service.BlocksSound, Ballot.Now, PairOf;
    var one, two := EpochState(PairOf(5, 5), h), EpochState(PairOf(7, 7), h);
    s := new Service(1, 1);
    s.StoreEpochState(1, one);
    s.StoreEpochState(2, two);
  }

  /** One validator's vote signed with the first group, and the other's signed with the second. */
  method CastBoth(s: Service, k: Key)
    requires s.Valid() && s.GroupIn(1) == PairOf(5, 5) && s.GroupIn(2) == PairOf(7, 7)
    requires s.blocks.Now() == Book(map[], map[]) && s.blockVotesSeen == {}
    modifies s`blockVotesSeen, s`lastBlockVote, s.blocks, s.blocks.votes
    ensures s.Valid() && s.blocks.Now().view.Keys == {k} && s.blocks.Now().voted == map[k := {1, 2}]
    ensures s.blocks.votes.View()[k].weight == 12
  {
    hide Service.Valid, Ballot.Now, WithVote, Room, PairOf, IndexIn, Has, Service.GroupIn;
    InPair(5, 5);
    FirstOfPair(k, 5, 5);
    NothingThere(k);
    CastOne(s, k, 1, 1, 0, PairOf(5, 5));
    SecondOfPair(s.blocks.Now(), k, 7, 7);
    CastOne(s, k, 2, 2, 1, PairOf(7, 7));
  }

  /** Two groups under one key: the tally is right for neither of them, and its weight is that of the two voters in neither.
      The second vote is one that an event of epoch 2 may carry for a block of epoch 1. */
  method MixedGroupsMiscount(h: Hash) returns (s: Service)
    ensures s.Valid() && s.history.Keys == {1, 2}
    ensures s.history[1].group == PairOf(5, 5) && s.history[2].group == PairOf(7, 7)
    ensures Miscounted(s.blocks.Now(), Key(1, 1, h), s.history[1].group, s.history[2].group)
  {
    hide Service.Valid, Ballot.Now, PairOf, WeightOf, EpochRight, Service.GroupIn;
    var k := Key(1, 1, h);
    s := PairEpochs(h);
    CastBoth(s, k);
    WrongWeight(s.blocks.Now(), k, 5);
    WrongWeight(s.blocks.Now(), k, 7);
  }

  lemma NothingThere(k: Key)
    ensures forall i :: Room(map[], k, i)
  {
  }

  /** Two validators voted for the only key, and its weight is theirs in neither group. */
  ghost predicate Miscounted(b: Book, k: Key, g: Group, s: Group) {
    && b.view.Keys == {k} && b.voted == map[k := {1, 2}]
    && b.view[k].weight != WeightOf(g, {1, 2}) && b.view[k].weight != WeightOf(s, {1, 2})
    && !EpochRight(b, k.epoch, g) && !EpochRight(b, k.epoch, s)
  }

  lemma WrongWeight(b: Book, k: Key, w: uint32)
    requires k in b.view && k in b.voted && b.voted[k] == {1, 2} && w < 500 && b.view[k].weight != 2 * w
    ensures b.view[k].weight != WeightOf(PairOf(w, w), {1, 2}) && !EpochRight(b, k.epoch, PairOf(w, w))
  {
  }
}
