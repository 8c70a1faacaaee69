/** The engine and its vote sets as the program keeps them, proved against EngineSpec. */
module DewBft {
  import opened Arithmetic
  import opened Options
  import opened Validators
  import opened Quorums
  import opened MapSums
  import opened EngineSpec

  /** Unique votes of one kind for one height and round, with the power behind each hash. */
  class VoteSet {
    const kind: VoteType
    const height: nat
    const round: nat
    var byAddr: Ballots
    var power: map<Hash, nat>
    var totalSeen: nat

    ghost predicate Valid(powers: Powers)
      reads this
    {
      && byAddr.Keys <= powers.Keys
      && Tallied(powers, byAddr, power)
      && totalSeen == Power(powers, byAddr.Keys)
    }

    constructor (ghost powers: Powers, kind: VoteType, height: nat, round: nat)
      ensures this.kind == kind && this.height == height && this.round == round
      ensures byAddr == map[] && power == map[] && totalSeen == 0
      ensures Valid(powers)
    {
      this.kind := kind;
      this.height := height;
      this.round := round;
      byAddr := map[];
      power := map[];
      totalSeen := 0;
      assert Part(powers, {}) == map[];
      assert forall h: Hash :: Voters(map[], h) == {};
    }

    /** Counts a vote unless it is for another slot or its validator has voted; sums never leave 64 bits. */
    method Add(ghost powers: Powers, v: Vote, weight: nat) returns (added: bool)
      requires Valid(powers) && Fits(powers)
      requires v.validator in powers && weight == powers[v.validator]
      modifies this
      ensures Valid(powers)
      ensures added == (v.kind == kind && v.height == height && v.round == round && v.validator !in old(byAddr))
      ensures byAddr == if added then old(byAddr)[v.validator := v.hash] else old(byAddr)
    {
      if v.kind != kind || v.height != height || v.round != round || v.validator in byAddr {
        return false;
      }
      CountVote(powers, byAddr, power, totalSeen, v.validator, v.hash);
      byAddr := byAddr[v.validator := v.hash];
      power := power[v.hash := (TallyOf(power, v.hash) + weight) % TwoTo64];
      totalSeen := (totalSeen + weight) % TwoTo64;
      added := true;
    }

    /** Looks through the tallies in any order and returns the hash with a quorum, if there is one. */
    method MajorityHash(ghost cfg: Config, total: nat) returns (h: Hash, ok: bool)
      requires Valid(cfg.powers) && Fits(cfg.powers) && total == Total(cfg.powers)
      ensures (if ok then Some(h) else None) == Majority(cfg, byAddr)
    {
      var todo := power.Keys;
      while todo != {}
        invariant todo <= power.Keys
        invariant forall g <- power.Keys - todo :: !HasQuorum(power[g], total)
        decreases todo
      {
        h :| h in todo;
        if HasQuorum(power[h], total) {
          assert Quorate(cfg, byAddr, h);
          OneMajority(cfg, byAddr, h);
          return h, true;
        }
        todo := todo - {h};
      }
      forall g: Hash ensures !Quorate(cfg, byAddr, g) {
        if g in power {
          assert g in power.Keys - todo;
        }
      }
      return 0, false;
    }
  }

  function TallyOf(power: map<Hash, nat>, h: Hash): nat {
    if h in power then power[h] else 0
  }

  /** The tallies are the power of the validators behind each hash. */
  ghost predicate Tallied(powers: Powers, ballots: Ballots, power: map<Hash, nat>) {
    forall h: Hash :: TallyOf(power, h) == Power(powers, Voters(ballots, h))
  }

  lemma CountVote(powers: Powers, ballots: Ballots, power: map<Hash, nat>, seen: nat, a: Address, hash: Hash)
    requires Fits(powers) && a in powers && a !in ballots
    requires Tallied(powers, ballots, power) && seen == Power(powers, ballots.Keys)
    ensures Tallied(powers, ballots[a := hash], power[hash := (TallyOf(power, hash) + powers[a]) % TwoTo64])
    ensures (seen + powers[a]) % TwoTo64 == Power(powers, ballots[a := hash].Keys)
  {
    OneMoreVoter(powers, ballots, a, hash, hash);
    PowerBounded(powers, Voters(ballots[a := hash], hash));
    assert (TallyOf(power, hash) + powers[a]) % TwoTo64 == TallyOf(power, hash) + powers[a];
    var counted := power[hash := TallyOf(power, hash) + powers[a]];
    forall h: Hash ensures TallyOf(counted, h) == Power(powers, Voters(ballots[a := hash], h)) {
      OneMoreVoter(powers, ballots, a, hash, h);
    }
    PowerWith(powers, ballots.Keys, a);
    assert ballots[a := hash].Keys == ballots.Keys + {a};
    PowerBounded(powers, ballots.Keys + {a});
  }

  lemma PowerWith(powers: Powers, s: set<Address>, a: Address)
    requires a in powers && a !in s
    ensures Power(powers, s + {a}) == Power(powers, s) + powers[a]
  {
    SumUpdate(Part(powers, s), a, powers[a]);
    assert Part(powers, s)[a := powers[a]] == Part(powers, s + {a});
  }

  lemma OneMoreVoter(powers: Powers, ballots: Ballots, a: Address, hash: Hash, h: Hash)
    requires a in powers && a !in ballots
    ensures Power(powers, Voters(ballots[a := hash], h))
         == Power(powers, Voters(ballots, h)) + if h == hash then powers[a] else 0
  {
    if h == hash {
      PowerWith(powers, Voters(ballots, h), a);
      assert Voters(ballots[a := hash], h) == Voters(ballots, h) + {a};
    } else {
      assert Voters(ballots[a := hash], h) == Voters(ballots, h);
    }
  }

  /** One validator's engine. Each method is one stretch of the program under the lock. */
  class ValidatorEngine {
    const cfg: Config
    const totalPower: nat
    const address: Address
    var height: nat
    var round: nat
    var step: Step
    var parent: Hash
    var proposal: Option<Proposal>
    var prevotes: VoteSet
    var precommits: VoteSet
    var lockedRound: int
    var lockedHash: Hash
    var committed: bool

    ghost predicate Valid()
      reads this, prevotes, precommits
    {
      && Fits(cfg.powers) && totalPower == Total(cfg.powers)
      && address in cfg.powers
      && prevotes != precommits
      && prevotes.Valid(cfg.powers) && prevotes.kind == PrevoteType
      && prevotes.height == height && prevotes.round == round
      && precommits.Valid(cfg.powers) && precommits.kind == PrecommitType
      && precommits.height == height && precommits.round == round
    }

    /** The value EngineSpec speaks of. */
    ghost function State(): Engine
      reads this, prevotes, precommits
    {
      Engine(address, height, round, step, parent, proposal, prevotes.byAddr, precommits.byAddr, lockedRound,
             lockedHash, committed)
    }

    constructor (cfg: Config, totalPower: nat, address: Address, parentNumber: nat, parent: Hash)
      requires Fits(cfg.powers) && totalPower == Total(cfg.powers) && address in cfg.powers
      ensures Valid() && fresh(prevotes) && fresh(precommits) && this.cfg == cfg
      ensures State() == Engine(address, parentNumber + 1, 0, NewRound, parent, None, map[], map[], -1, 0, false)
    {
      this.cfg := cfg;
      this.totalPower := totalPower;
      this.address := address;
      height := parentNumber + 1;
      round := 0;
      step := NewRound;
      this.parent := parent;
      proposal := None;
      prevotes := new VoteSet(cfg.powers, PrevoteType, parentNumber + 1, 0);
      precommits := new VoteSet(cfg.powers, PrecommitType, parentNumber + 1, 0);
      lockedRound := -1;
      lockedHash := 0;
      committed := false;
    }

    /** New, empty vote sets for the current height and round. */
    method ResetVoteSets()
      modifies this`prevotes, this`precommits
      ensures fresh(prevotes) && fresh(precommits) && prevotes != precommits
      ensures prevotes.byAddr == map[] && prevotes.Valid(cfg.powers) && prevotes.kind == PrevoteType
      ensures prevotes.height == height && prevotes.round == round
      ensures precommits.byAddr == map[] && precommits.Valid(cfg.powers) && precommits.kind == PrecommitType
      ensures precommits.height == height && precommits.round == round
    {
      prevotes := new VoteSet(cfg.powers, PrevoteType, height, round);
      precommits := new VoteSet(cfg.powers, PrecommitType, height, round);
    }

    /** Enters the first step of the given height and round: no votes, no proposal, no lock. */
    method BeginRound(height: nat, round: nat, parent: Hash)
      requires Valid()
      modifies this
      ensures Valid() && fresh(prevotes) && fresh(precommits)
      ensures State() ==
        ResetVotes(Unlocked(old(State())).(height := height, round := round, parent := parent)).(step := NewRound)
    {
      hide Fits, Tallied, Power;
      this.height, this.round, this.parent, step := height, round, parent, NewRound;
      lockedRound, lockedHash := -1, 0;
      proposal, committed := None, false;
      ResetVoteSets();
    }

    method TryPrecommits() returns (commit: Option<CommitEvent>)
      requires Valid()
      modifies this
      ensures Valid() && fresh({prevotes, precommits} - {old(prevotes), old(precommits)})
      ensures (State(), commit) == TryAfterPrecommit(cfg, old(State()))
      ensures MovesBy(old(State()), State(), commit)
    {
      PrecommitsMove(cfg, State());
      hide MovesBy;
      commit := None;
      if step != Precommit {
        return;
      }
      var maj, ok := precommits.MajorityHash(cfg, totalPower);
      if !ok {
        return;
      }
      if maj == 0 {
        BeginRound(height, round + 1, parent);
      } else if !committed && proposal.Some? && proposal.value.hash == maj {
        commit := Some(CommitEvent(height, round, maj));
        BeginRound(height + 1, 0, if proposal.value.hasBody then maj else parent);
      }
    }

    method TryPrevotes() returns (box: Outbox)
      requires Valid()
      modifies this, precommits
      ensures Valid() && fresh({prevotes, precommits} - {old(prevotes), old(precommits)})
      ensures (State(), box) == TryAfterPrevote(cfg, old(State()))
    {
      box := Silent;
      if step != Prevote {
        return;
      }
      var polka, ok := prevotes.MajorityHash(cfg, totalPower);
      if !ok {
        return;
      }
      step := Precommit;
      if polka != 0 {
        lockedRound := round;
        lockedHash := polka;
      }
      var v := Vote(PrecommitType, height, round, polka, address);
      var _ := precommits.Add(cfg.powers, v, cfg.powers[address]);
      assert State() == CastPrecommit(old(State()), polka);
      var commit := TryPrecommits();
      box := Outbox(None, None, Some(v), commit);
    }

    method HandleVote(v: Vote) returns (box: Outbox)
      requires Valid()
      modifies this, prevotes, precommits
      ensures Valid() && fresh({prevotes, precommits} - {old(prevotes), old(precommits)})
      ensures (State(), box) == EngineSpec.HandleVote(cfg, old(State()), v)
    {
      box := Silent;
      if v.height != height || v.validator !in cfg.powers {
        return;
      }
      if v.kind == PrevoteType {
        var added := prevotes.Add(cfg.powers, v, cfg.powers[v.validator]);
        if added {
          box := TryPrevotes();
        }
      } else {
        var added := precommits.Add(cfg.powers, v, cfg.powers[v.validator]);
        if added {
          var commit := TryPrecommits();
          box := Silent.(commit := commit);
        }
      }
    }

    /** StartRound up to the point where the lock is released. */
    method StartRound() returns (build: Option<Build>)
      requires Valid()
      modifies this
      ensures Valid() && fresh({prevotes, precommits} - {old(prevotes), old(precommits)})
      ensures (State(), build) == BeginStartRound(cfg, old(State()))
    {
      build := None;
      if step != NewRound {
        return;
      }
      prevotes := new VoteSet(cfg.powers, PrevoteType, height, round);
      precommits := new VoteSet(cfg.powers, PrecommitType, height, round);
      proposal := None;
      committed := false;
      step := Propose;
      if cfg.proposer(height, round) == address {
        build := Some(Build(height, round));
      }
    }

    /** StartRound from the point where the block is built, up to the release of the lock for validation. */
    method BlockBuilt(b: Build, block: Option<Hash>) returns (w: Option<Validation>, box: Outbox)
      requires Valid()
      modifies this
      ensures Valid() && prevotes == old(prevotes) && precommits == old(precommits)
      ensures (State(), w, box) == EndStartRound(old(State()), b, block)
    {
      w, box := None, Silent;
      if height != b.height || round != b.round || step != Propose || block.None? {
        return;
      }
      var p := Proposal(b.height, b.round, block.value, true, address);
      proposal := Some(p);
      box := Silent.(proposal := Some(p));
      step := Prevote;
      w := Some(Validation(height, round, parent, proposal, lockedRound, lockedHash));
    }

    method HandleProposal(p: Proposal) returns (w: Option<Validation>)
      requires Valid()
      modifies this
      ensures Valid() && prevotes == old(prevotes) && precommits == old(precommits)
      ensures (State(), w) == EngineSpec.HandleProposal(cfg, old(State()), p)
    {
      w := None;
      if p.height != height || p.round != round || proposal.Some? || p.proposer != cfg.proposer(height, round) {
        return;
      }
      proposal := Some(p);
      if step == Propose || step == NewRound {
        step := Prevote;
        w := Some(Validation(height, round, parent, proposal, lockedRound, lockedHash));
      }
    }

    /** The end of enterPrevote: the lock is held again and the engine may have moved. */
    method FinishPrevote(w: Validation, valid: bool) returns (box: Outbox)
      requires Valid()
      modifies this, prevotes, precommits
      ensures Valid() && fresh({prevotes, precommits} - {old(prevotes), old(precommits)})
      ensures (State(), box) == EndPrevote(cfg, old(State()), w, valid)
    {
      var hash := 0;
      if w.proposal.Some? && w.proposal.value.hasBody && valid {
        hash := w.proposal.value.hash;
      }
      if w.lockedRound >= 0 && w.lockedHash != 0 {
        hash := w.lockedHash;
      }
      var v := Vote(PrevoteType, w.height, w.round, hash, address);
      box := Silent;
      if height != w.height || round != w.round || step != Prevote {
        return;
      }
      var _ := prevotes.Add(cfg.powers, v, cfg.powers[address]);
      box := TryPrevotes();
      box := box.(prevote := Some(v));
    }

    method ForceTimeoutRound()
      requires Valid()
      modifies this
      ensures Valid() && fresh(prevotes) && fresh(precommits)
      ensures State() == EnterNextRound(old(State()))
    {
      BeginRound(height, round + 1, parent);
    }

    /** Whether the block moved the engine on. */
    method ApplySyncedBlock(number: nat, parentHash: Hash, hash: Hash) returns (advanced: bool)
      requires Valid()
      modifies this
      ensures Valid() && fresh({prevotes, precommits} - {old(prevotes), old(precommits)})
      ensures State() == EngineSpec.ApplySyncedBlock(old(State()), number, parentHash, hash)
      ensures advanced <==> height > old(height)
    {
      if height > number || height != number || parentHash != parent {
        return false;
      }
      BeginRound(number + 1, 0, hash);
      advanced := true;
    }
  }
}
