/**
 When a height has one block. Leaving a round releases the lock, whether by a timeout or by a nil majority of
 precommits. As long as no honest engine does that with a lock in hand, each precommits one block at the height, and
 all commit the same one.
 */
module HeightLocks {
  import opened Options
  import opened Validators
  import opened Quorums
  import opened EngineSpec
  import opened Protocol

  /* ---------- the branch that releases a lock ---------- */

  /** A nil majority of precommits sends a locked engine to the next round. */
  ghost predicate DropsAfterPrecommit(cfg: Config, e: Engine, h: nat) {
    e.height == h && e.lockedHash != 0 && e.step == Precommit && Majority(cfg, e.precommits) == Some(0)
  }

  /** The same in one go with the precommit that took the lock. */
  ghost predicate DropsAfterPrevote(cfg: Config, e: Engine, h: nat) {
    && e.step == Prevote && Majority(cfg, e.prevotes).Some?
    && DropsAfterPrecommit(cfg, CastPrecommit(e, Majority(cfg, e.prevotes).value), h)
  }

  /** A vote that HandleVote counts. */
  ghost predicate Counts(cfg: Config, e: Engine, v: Vote) {
    && v.height == e.height && v.round == e.round && v.validator in cfg.powers
    && v.validator !in (if v.kind == PrevoteType then e.prevotes else e.precommits)
  }

  /** Whether a step takes an honest engine out of a round of the height while it holds a lock. */
  ghost predicate DropsLock(cfg: Config, e: Engine, act: Action, h: nat) {
    match act
    case Timeout(_) => e.height == h && e.lockedHash != 0
    case ReceiveVote(_, v) =>
      && Counts(cfg, e, v)
      && (match v.kind
          case PrevoteType => DropsAfterPrevote(cfg, e.(prevotes := AddBallot(e.prevotes, v.validator, v.hash)), h)
          case PrecommitType =>
            DropsAfterPrecommit(cfg, e.(precommits := AddBallot(e.precommits, v.validator, v.hash)), h))
    case Validated(_, w, valid) =>
      && Current(e, w.height, w.round, Prevote)
      && DropsAfterPrevote(cfg, e.(prevotes := AddBallot(e.prevotes, e.address, PrevoteHash(w, valid))), h)
    case _ => false
  }

  ghost predicate FollowsHolding(cfg: Config, sys: System, next: System, h: nat) {
    exists act :: Enabled(sys, act) && next == Next(cfg, sys, act) && !DropsLock(cfg, sys.nodes[act.at].engine, act, h)
  }

  /** A run no step of which drops a lock at the height. */
  ghost predicate HoldsLocks(cfg: Config, run: seq<System>, h: nat) {
    forall i | 0 < i < |run| :: FollowsHolding(cfg, run[i - 1], run[i], h)
  }

  /* ---------- one engine ---------- */

  /** The engine is in the round of its precommit for the block, and locked on it. */
  predicate LockedOn(e: Engine, height: nat, round: nat, x: Hash) {
    e.height == height && e.round == round && e.step == Precommit && e.lockedRound == round && e.lockedHash == x
  }

  predicate PastOrLocked(e: Engine, height: nat, round: nat, x: Hash) {
    e.height > height || LockedOn(e, height, round, x)
  }

  lemma PrecommitsHold(cfg: Config, e: Engine, round: nat, x: Hash, h: nat)
    requires x != 0 && LockedOn(e, h, round, x) && !DropsAfterPrecommit(cfg, e, h)
    ensures PastOrLocked(TryAfterPrecommit(cfg, e).0, h, round, x)
  {
  }

  /** The precommit that follows a prevote: the engine was in Prevote, and ends up locked on its block or past it. */
  lemma PrevotesHold(cfg: Config, e: Engine, h: nat)
    requires !DropsAfterPrevote(cfg, e, h)
    ensures
      var (e', box) := TryAfterPrevote(cfg, e);
      box.precommit.Some? ==>
        var v := box.precommit.value;
        && e.step == Prevote && v == Vote(PrecommitType, e.height, e.round, v.hash, e.address)
        && (v.hash != 0 && e.height == h ==> PastOrLocked(e', h, e.round, v.hash))
    ensures e.step == Precommit ==> TryAfterPrevote(cfg, e).0 == e
  {
    if e.step == Prevote && Majority(cfg, e.prevotes).Some? {
      var polka := Majority(cfg, e.prevotes).value;
      if polka != 0 && e.height == h {
        PrecommitsHold(cfg, CastPrecommit(e, polka), e.round, polka, h);
      }
    }
  }

  /** What a step signs as a precommit, if anything. */
  ghost function Precommitted(cfg: Config, e: Engine, act: Action): Option<Vote> {
    match act
    case ReceiveVote(_, v) => HandleVote(cfg, e, v).1.precommit
    case Validated(_, w, valid) => EndPrevote(cfg, e, w, valid).1.precommit
    case _ => None
  }

  /** An engine locked on a block at the height stays so or moves past it, unless the step drops the lock. */
  lemma LockStays(cfg: Config, sys: System, act: Action, round: nat, x: Hash, h: nat)
    requires Enabled(sys, act) && x != 0
    requires PastOrLocked(sys.nodes[act.at].engine, h, round, x) && !DropsLock(cfg, sys.nodes[act.at].engine, act, h)
    ensures PastOrLocked(Next(cfg, sys, act).nodes[act.at].engine, h, round, x)
  {
    var e := sys.nodes[act.at].engine;
    PositionsAdvance(cfg, sys, act, act.at);
    if LockedOn(e, h, round, x) && act.ReceiveVote? && Counts(cfg, e, act.vote) {
      var v := act.vote;
      if v.kind == PrevoteType {
        PrevotesHold(cfg, e.(prevotes := AddBallot(e.prevotes, v.validator, v.hash)), h);
      } else {
        PrecommitsHold(cfg, e.(precommits := AddBallot(e.precommits, v.validator, v.hash)), round, x, h);
      }
    }
  }

  /** A step that precommits a block at the height starts in Prevote and ends locked on the block or past the height. */
  lemma PrecommitLocks(cfg: Config, sys: System, act: Action, h: nat)
    requires Enabled(sys, act) && !DropsLock(cfg, sys.nodes[act.at].engine, act, h)
    ensures
      var e := sys.nodes[act.at].engine;
      var p := Precommitted(cfg, e, act);
      p.Some? ==>
        && e.step == Prevote && p.value == Vote(PrecommitType, e.height, e.round, p.value.hash, e.address)
        && (p.value.hash != 0 && e.height == h ==>
              PastOrLocked(Next(cfg, sys, act).nodes[act.at].engine, h, e.round, p.value.hash))
  {
    var e := sys.nodes[act.at].engine;
    match act
    case ReceiveVote(_, v) =>
      if Counts(cfg, e, v) && v.kind == PrevoteType {
        PrevotesHold(cfg, e.(prevotes := AddBallot(e.prevotes, v.validator, v.hash)), h);
      }
    case Validated(_, w, valid) =>
      if Current(e, w.height, w.round, Prevote) {
        PrevotesHold(cfg, e.(prevotes := AddBallot(e.prevotes, e.address, PrevoteHash(w, valid))), h);
      }
    case _ =>
  }

  /** Precommits signed after a step are those signed before it and the one it casts. */
  lemma NewPrecommits(cfg: Config, sys: System, act: Action, v: Vote)
    requires Enabled(sys, act) && v.kind == PrecommitType && HasSigned(Next(cfg, sys, act).signed, v)
    ensures HasSigned(sys.signed, v) || Precommitted(cfg, sys.nodes[act.at].engine, act) == Some(v)
  {
  }

  /* ---------- all engines, whole runs ---------- */

  /** Every block an honest validator precommitted at the height is the one it is locked on, until it moves past. */
  ghost predicate AllLocked(sys: System, h: nat) {
    forall a <- sys.nodes.Keys, r: nat, x: Hash ::
      x != 0 && HasSigned(sys.signed, Vote(PrecommitType, h, r, x, a)) ==> PastOrLocked(sys.nodes[a].engine, h, r, x)
  }

  lemma NextKeepsLocked(cfg: Config, sys: System, act: Action, h: nat)
    requires Inv(cfg, sys) && AllLocked(sys, h)
    requires Enabled(sys, act) && !DropsLock(cfg, sys.nodes[act.at].engine, act, h)
    ensures AllLocked(Next(cfg, sys, act), h)
  {
    var next := Next(cfg, sys, act);
    NextKeepsNodes(cfg, sys, act);
    assert NodeInv(sys.nodes.Keys, sys.signed, act.at, sys.nodes[act.at]);
    forall a <- next.nodes.Keys, r: nat, x: Hash | x != 0 && HasSigned(next.signed, Vote(PrecommitType, h, r, x, a))
      ensures PastOrLocked(next.nodes[a].engine, h, r, x)
    {
      LockedAfter(cfg, sys, act, a, r, x, h);
    }
  }

  lemma LockedAfter(cfg: Config, sys: System, act: Action, a: Address, r: nat, x: Hash, h: nat)
    requires AllLocked(sys, h) && a in sys.nodes && x != 0
    requires Enabled(sys, act) && !DropsLock(cfg, sys.nodes[act.at].engine, act, h)
    requires sys.nodes[act.at].engine.address == act.at
    requires HasSigned(Next(cfg, sys, act).signed, Vote(PrecommitType, h, r, x, a))
    ensures a in Next(cfg, sys, act).nodes && PastOrLocked(Next(cfg, sys, act).nodes[a].engine, h, r, x)
  {
    var v := Vote(PrecommitType, h, r, x, a);
    NextKeepsNodes(cfg, sys, act);
    NewPrecommits(cfg, sys, act, v);
    PrecommitLocks(cfg, sys, act, h);
    if HasSigned(sys.signed, v) {
      if a == act.at {
        LockStays(cfg, sys, act, r, x, h);
      } else {
        assert Next(cfg, sys, act).nodes[a] == sys.nodes[a];
      }
    }
  }

  /** A step in Prevote has no earlier precommit for a block of its height to contradict. */
  lemma NextKeepsChoice(cfg: Config, sys: System, act: Action, h: nat)
    requires Inv(cfg, sys) && AllLocked(sys, h) && NoSwitch(sys, h)
    requires Enabled(sys, act) && !DropsLock(cfg, sys.nodes[act.at].engine, act, h)
    ensures NoSwitch(Next(cfg, sys, act), h)
  {
    var next := Next(cfg, sys, act);
    NextKeepsNodes(cfg, sys, act);
    PrecommitLocks(cfg, sys, act, h);
    forall a, r, s, x, y | a in next.nodes && x != 0 && y != 0
      && HasSigned(next.signed, Vote(PrecommitType, h, r, x, a))
      && HasSigned(next.signed, Vote(PrecommitType, h, s, y, a))
      ensures x == y
    {
      NewPrecommits(cfg, sys, act, Vote(PrecommitType, h, r, x, a));
      NewPrecommits(cfg, sys, act, Vote(PrecommitType, h, s, y, a));
    }
  }

  lemma NothingSigned(cfg: Config, sys: System, h: nat)
    requires Initial(cfg, sys)
    ensures AllLocked(sys, h) && NoSwitch(sys, h)
  {
  }

  lemma StepKeepsLocked(cfg: Config, sys: System, next: System, h: nat)
    requires Fits(cfg.powers) && Inv(cfg, sys) && AllLocked(sys, h) && NoSwitch(sys, h)
    requires FollowsHolding(cfg, sys, next, h)
    ensures AllLocked(next, h) && NoSwitch(next, h)
  {
    var act :| Enabled(sys, act) && next == Next(cfg, sys, act) && !DropsLock(cfg, sys.nodes[act.at].engine, act, h);
    hide Inv, AllLocked, NoSwitch, Next, Enabled, DropsLock;
    NextKeepsLocked(cfg, sys, act, h);
    NextKeepsChoice(cfg, sys, act, h);
  }

  lemma {:induction false} RunKeepsLocked(cfg: Config, run: seq<System>, h: nat, i: nat)
    requires Fits(cfg.powers) && IsRun(cfg, run) && HoldsLocks(cfg, run, h) && i < |run|
    ensures AllLocked(run[i], h) && NoSwitch(run[i], h)
  {
    hide Inv, AllLocked, NoSwitch, FollowsHolding, Initial, Follows;
    if i == 0 {
      NothingSigned(cfg, run[0], h);
    } else {
      RunKeepsLocked(cfg, run, h, i - 1);
      RunKeepsInv(cfg, run, i - 1);
      StepKeepsLocked(cfg, run[i - 1], run[i], h);
    }
  }

  /** One block per height, in every run in which no honest engine leaves a round of the height with a lock in hand. */
  lemma HeightAgreement(cfg: Config, run: seq<System>, c: Commitment, d: Commitment)
    requires IsRun(cfg, run) && FaultBound(cfg, run[0])
    requires c in Last(run).commits && d in Last(run).commits
    requires c.event.height == d.event.height && HoldsLocks(cfg, run, c.event.height)
    ensures c.event.hash == d.event.hash
  {
    RunKeepsLocked(cfg, run, c.event.height, |run| - 1);
    AgreementWithoutSwitch(cfg, run, c, d);
  }
}
