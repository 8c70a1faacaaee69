/**
 How an engine's height moves. It rises by one at a time, exactly when the engine commits a block of its height or takes
 a synced one; so an engine past a height has decided every height on the way, each of them once.
 */
module HeightChain {
  import opened Options
  import opened Validators
  import opened Quorums
  import opened EngineSpec
  import opened Protocol

  /** A new commit of the validator, recorded by a step. */
  ghost predicate CommitsNow(sys: System, next: System, a: Address, ev: CommitEvent) {
    Commitment(a, ev) in next.commits && Commitment(a, ev) !in sys.commits
  }

  /** The step delivers a synced block that extends the engine's parent at its height. */
  predicate SyncsNow(e: Engine, act: Action, x: Hash) {
    act == Synced(e.address, e.height, e.parent, x)
  }

  /* ---------- one engine ---------- */

  /** The commit a step emits, read off what it records. */
  ghost function Emitted(cfg: Config, e: Engine, act: Action): Option<CommitEvent> {
    match act
    case ReceiveVote(_, v) => HandleVote(cfg, e, v).1.commit
    case Validated(_, w, valid) => EndPrevote(cfg, e, w, valid).1.commit
    case _ => None
  }

  /** What a step of the acting engine does to it and to the commits. */
  ghost predicate Moves(sys: System, next: System, act: Action, commit: Option<CommitEvent>)
    requires act.at in sys.nodes && act.at in next.nodes
  {
    var (e, e') := (sys.nodes[act.at].engine, next.nodes[act.at].engine);
    && next.commits == sys.commits + (if commit.Some? then {Commitment(act.at, commit.value)} else {})
    && if act.Synced? && SyncsNow(e, act, act.hash)
       then commit.None? && e' == Waiting(e.address, e.height + 1, 0, act.hash)
       else MovesBy(e, e', commit)
  }

  lemma VoteMoves(cfg: Config, sys: System, act: Action)
    requires Enabled(sys, act) && act.ReceiveVote?
    ensures Moves(sys, Next(cfg, sys, act), act, Emitted(cfg, sys.nodes[act.at].engine, act))
  {
    var e, v := sys.nodes[act.at].engine, act.vote;
    PrevotesMove(cfg, e.(prevotes := AddBallot(e.prevotes, v.validator, v.hash)));
    PrecommitsMove(cfg, e.(precommits := AddBallot(e.precommits, v.validator, v.hash)));
    hide TryAfterPrevote, TryAfterPrecommit, AddBallot;
  }

  lemma ValidatedMoves(cfg: Config, sys: System, act: Action)
    requires Enabled(sys, act) && act.Validated?
    ensures Moves(sys, Next(cfg, sys, act), act, Emitted(cfg, sys.nodes[act.at].engine, act))
  {
    var e := sys.nodes[act.at].engine;
    PrevotesMove(cfg, e.(prevotes := AddBallot(e.prevotes, e.address, PrevoteHash(act.validation, act.valid))));
    hide TryAfterPrevote, AddBallot, PrevoteHash;
  }

  lemma QuietMoves(cfg: Config, sys: System, act: Action)
    requires Enabled(sys, act) && !act.ReceiveVote? && !act.Validated? && act.at == sys.nodes[act.at].engine.address
    ensures Moves(sys, Next(cfg, sys, act), act, None)
  {
  }

  lemma EngineMoves(cfg: Config, sys: System, act: Action)
    requires Enabled(sys, act) && act.at == sys.nodes[act.at].engine.address
    ensures act.at in Next(cfg, sys, act).nodes
    ensures Moves(sys, Next(cfg, sys, act), act, Emitted(cfg, sys.nodes[act.at].engine, act))
  {
    NextKeepsNodes(cfg, sys, act);
    hide Next, Moves, HandleVote, EndPrevote;
    match act
    case ReceiveVote(_, _) => VoteMoves(cfg, sys, act);
    case Validated(_, _, _) => ValidatedMoves(cfg, sys, act);
    case _ => QuietMoves(cfg, sys, act);
  }

  /* ---------- one step of a system ---------- */

  ghost predicate Named(sys: System) {
    forall a <- sys.nodes.Keys :: sys.nodes[a].engine.address == a
  }

  lemma InvNames(cfg: Config, sys: System)
    requires Inv(cfg, sys)
    ensures Named(sys)
  {
    forall a <- sys.nodes.Keys ensures sys.nodes[a].engine.address == a {
      assert NodeInv(sys.nodes.Keys, sys.signed, a, sys.nodes[a]);
    }
  }

  /** A validator's commits lie below its engine's height, one for a height. */
  ghost predicate CommitsBehind(sys: System) {
    && (forall c <- sys.commits :: c.validator in sys.nodes && c.event.height < sys.nodes[c.validator].engine.height)
    && (forall c <- sys.commits, d <- sys.commits ::
          c.validator == d.validator && c.event.height == d.event.height ==> c == d)
  }

  /**
   The engine commits the block it had proposed to it. The block becomes the parent unless only its hash was known.
   */
  ghost predicate Commits(sys: System, next: System, a: Address, x: Hash)
    requires a in sys.nodes && a in next.nodes
  {
    var e := sys.nodes[a].engine;
    && CommitsNow(sys, next, a, CommitEvent(e.height, e.round, x))
    && e.proposal.Some? && e.proposal.value.hash == x
    && next.nodes[a].engine == Waiting(a, e.height + 1, 0, if e.proposal.value.hasBody then x else e.parent)
  }

  ghost predicate Syncs(sys: System, act: Action, next: System, a: Address, x: Hash)
    requires a in sys.nodes && a in next.nodes
  {
    var e := sys.nodes[a].engine;
    SyncsNow(e, act, x) && next.nodes[a].engine == Waiting(a, e.height + 1, 0, x)
  }

  lemma ActorIsNamed(sys: System, act: Action)
    requires Named(sys) && Enabled(sys, act)
    ensures act.at in sys.nodes && sys.nodes[act.at].engine.address == act.at
  {
  }

  /**
   A height rises by one, exactly when the engine commits a block of it or takes a synced one; at the same height the
   parent stays, and the round rises by at most one.
   */
  ghost predicate StepsUp(sys: System, act: Action, next: System, a: Address)
    requires a in sys.nodes && a in next.nodes
  {
    var (e, e') := (sys.nodes[a].engine, next.nodes[a].engine);
    && (e'.height == e.height || e'.height == e.height + 1)
    && (e'.height == e.height + 1 <==>
          (exists x :: Commits(sys, next, a, x)) || (exists x :: Syncs(sys, act, next, a, x)))
    && (forall ev :: CommitsNow(sys, next, a, ev) ==>
          ev.height == e.height && ev.round == e.round && Commits(sys, next, a, ev.hash))
    && (forall x :: SyncsNow(e, act, x) ==> Syncs(sys, act, next, a, x))
    && (e'.height == e.height ==>
          e'.parent == e.parent && (e'.round == e.round || e' == Waiting(a, e.height, e.round + 1, e.parent)))
  }

  lemma HeightSteps(cfg: Config, sys: System, act: Action, a: Address)
    requires Named(sys) && CommitsBehind(sys) && Enabled(sys, act) && a in sys.nodes
    ensures a in Next(cfg, sys, act).nodes && StepsUp(sys, act, Next(cfg, sys, act), a)
  {
    hide *;
    ActorIsNamed(sys, act);
    OthersStay(cfg, sys, act);
    EngineMoves(cfg, sys, act);
    NextKeepsNodes(cfg, sys, act);
    if a == act.at {
      ActorStepsUp(sys, Next(cfg, sys, act), act, Emitted(cfg, sys.nodes[a].engine, act));
    } else {
      OtherStepsUp(sys, Next(cfg, sys, act), act, Emitted(cfg, sys.nodes[act.at].engine, act), a);
    }
  }

  lemma OtherStepsUp(sys: System, next: System, act: Action, commit: Option<CommitEvent>, a: Address)
    requires a in sys.nodes && act.at in sys.nodes && a != act.at && OnlyAt(sys, next, act.at) && Named(sys)
    requires Moves(sys, next, act, commit)
    ensures StepsUp(sys, act, next, a)
  {
    assert next.nodes[a] == sys.nodes[a] && sys.nodes[a].engine.address == a;
  }

  lemma ActorStepsUp(sys: System, next: System, act: Action, commit: Option<CommitEvent>)
    requires act.at in sys.nodes && act.at in next.nodes && act.at == sys.nodes[act.at].engine.address
    requires CommitsBehind(sys) && Moves(sys, next, act, commit)
    ensures StepsUp(sys, act, next, act.at)
  {
    var e := sys.nodes[act.at].engine;
    if commit.Some? {
      assert Commits(sys, next, act.at, commit.value.hash);
    } else if act.Synced? && SyncsNow(e, act, act.hash) {
      assert Syncs(sys, act, next, act.at, act.hash);
    }
  }

  lemma BehindStep(sys: System, next: System, act: Action, commit: Option<CommitEvent>)
    requires act.at in sys.nodes && OnlyAt(sys, next, act.at) && CommitsBehind(sys) && Moves(sys, next, act, commit)
    ensures CommitsBehind(next)
  {
  }

  lemma NextKeepsBehind(cfg: Config, sys: System, act: Action)
    requires Named(sys) && CommitsBehind(sys) && Enabled(sys, act)
    ensures CommitsBehind(Next(cfg, sys, act))
  {
    hide *;
    ActorIsNamed(sys, act);
    OthersStay(cfg, sys, act);
    EngineMoves(cfg, sys, act);
    BehindStep(sys, Next(cfg, sys, act), act, Emitted(cfg, sys.nodes[act.at].engine, act));
  }

  /* ---------- whole runs ---------- */

  lemma StartsBehind(cfg: Config, run: seq<System>)
    requires IsRun(cfg, run)
    ensures run != [] && CommitsBehind(run[0])
  {
  }

  lemma {:induction false} RunKeepsBehind(cfg: Config, run: seq<System>, i: nat)
    requires Fits(cfg.powers) && IsRun(cfg, run) && i < |run|
    ensures CommitsBehind(run[i])
  {
    hide *;
    if i == 0 {
      StartsBehind(cfg, run);
    } else {
      var act := ActionOf(cfg, run, i);
      RunKeepsInv(cfg, run, i - 1);
      InvNames(cfg, run[i - 1]);
      RunKeepsBehind(cfg, run, i - 1);
      NextKeepsBehind(cfg, run[i - 1], act);
    }
  }

  /** In every run an honest engine commits a height at most once. */
  lemma CommitsOnce(cfg: Config, run: seq<System>, c: Commitment, d: Commitment)
    requires Fits(cfg.powers) && IsRun(cfg, run) && c in Last(run).commits && d in Last(run).commits
    requires c.validator == d.validator && c.event.height == d.event.height
    ensures c == d
  {
    RunKeepsBehind(cfg, run, |run| - 1);
  }

  ghost predicate SyncStep(cfg: Config, sys: System, next: System, a: Address, x: Hash)
    requires a in sys.nodes && a in next.nodes
  {
    exists act :: Enabled(sys, act) && next == Next(cfg, sys, act) && Syncs(sys, act, next, a, x)
  }

  /** Step `i` of the run takes the engine from the height to the next one by a block. */
  ghost predicate DecidesAt(cfg: Config, run: seq<System>, a: Address, height: nat, i: nat, x: Hash) {
    && 0 < i < |run| && a in run[i - 1].nodes && a in run[i].nodes
    && run[i - 1].nodes[a].engine.height == height
    && (Commits(run[i - 1], run[i], a, x) || SyncStep(cfg, run[i - 1], run[i], a, x))
  }

  ghost predicate Decides(cfg: Config, run: seq<System>, a: Address, height: nat, i: nat) {
    exists x: Hash :: DecidesAt(cfg, run, a, height, i, x)
  }

  ghost function EngineAt(run: seq<System>, a: Address, i: nat): Engine
    requires i < |run| && a in run[i].nodes
  {
    run[i].nodes[a].engine
  }

  /** Step `i` of the run leaves the engine's height and parent, or decides the height. */
  ghost predicate Stepped(cfg: Config, run: seq<System>, a: Address, i: nat) {
    && 0 < i < |run| && a in run[i - 1].nodes && a in run[i].nodes
    && var (e, e') := (EngineAt(run, a, i - 1), EngineAt(run, a, i));
       || (e'.height == e.height && e'.parent == e.parent)
       || (e'.height == e.height + 1 && Decides(cfg, run, a, e.height, i))
  }

  lemma NodesStay(cfg: Config, run: seq<System>, a: Address, i: nat)
    requires Fits(cfg.powers) && IsRun(cfg, run) && i < |run| && a in run[0].nodes
    ensures a in run[i].nodes
  {
    hide Fits, IsRun, Inv;
    RunKeepsInv(cfg, run, i);
  }

  lemma OneStep(cfg: Config, run: seq<System>, a: Address, i: nat)
    requires Fits(cfg.powers) && IsRun(cfg, run) && 0 < i < |run| && a in run[0].nodes
    ensures Stepped(cfg, run, a, i)
  {
    hide *;
    NodesStay(cfg, run, a, i - 1);
    var act := ActionOf(cfg, run, i);
    RunKeepsInv(cfg, run, i - 1);
    InvNames(cfg, run[i - 1]);
    RunKeepsBehind(cfg, run, i - 1);
    HeightSteps(cfg, run[i - 1], act, a);
    StepDecides(cfg, run, act, a, i);
  }

  lemma StepDecides(cfg: Config, run: seq<System>, act: Action, a: Address, i: nat)
    requires 0 < i < |run| && a in run[i - 1].nodes && a in run[i].nodes
    requires Enabled(run[i - 1], act) && run[i] == Next(cfg, run[i - 1], act) && StepsUp(run[i - 1], act, run[i], a)
    ensures Stepped(cfg, run, a, i)
  {
    hide Next, Enabled, Commits, Syncs;
    var sys, next := run[i - 1], run[i];
    if x :| Commits(sys, next, a, x) {
      assert DecidesAt(cfg, run, a, EngineAt(run, a, i - 1).height, i, x);
    } else if x :| Syncs(sys, act, next, a, x) {
      assert SyncStep(cfg, sys, next, a, x);
      assert DecidesAt(cfg, run, a, EngineAt(run, a, i - 1).height, i, x);
    }
  }

  ghost predicate DecidedBy(cfg: Config, run: seq<System>, a: Address, height: nat, n: nat) {
    exists i: nat | i <= n :: Decides(cfg, run, a, height, i)
  }

  /** The engine has decided every height from its first one up to where it is. */
  ghost predicate NoGap(cfg: Config, run: seq<System>, a: Address, n: nat) {
    && n < |run| && a in run[0].nodes && a in run[n].nodes && EngineAt(run, a, 0).height <= EngineAt(run, a, n).height
    && forall h: nat | EngineAt(run, a, 0).height <= h < EngineAt(run, a, n).height :: DecidedBy(cfg, run, a, h, n)
  }

  lemma GapStep(cfg: Config, run: seq<System>, a: Address, m: nat, n: nat)
    requires n == m + 1 && NoGap(cfg, run, a, m) && Stepped(cfg, run, a, n)
    ensures NoGap(cfg, run, a, n)
  {
    hide Decides;
    forall h: nat | EngineAt(run, a, 0).height <= h < EngineAt(run, a, n).height ensures DecidedBy(cfg, run, a, h, n) {
      if h < EngineAt(run, a, m).height {
        assert DecidedBy(cfg, run, a, h, m);
      }
    }
  }

  /**
   An engine past a height has decided it: in every run, each height from the engine's first one up to its present one
   was committed by the engine or taken from a synced block.
   */
  lemma {:induction false} HeightsAreDecided(cfg: Config, run: seq<System>, a: Address, n: nat)
    requires Fits(cfg.powers) && IsRun(cfg, run) && n < |run| && a in run[0].nodes
    ensures NoGap(cfg, run, a, n)
  {
    hide IsRun, Fits;
    if n > 0 {
      hide *;
      HeightsAreDecided(cfg, run, a, n - 1);
      OneStep(cfg, run, a, n);
      GapStep(cfg, run, a, n - 1, n);
    }
  }

  /** Step `i` decided the height below the engine's, and the engine has kept the parent it left. */
  ghost predicate Inherits(cfg: Config, run: seq<System>, a: Address, i: nat, n: nat) {
    && i <= n < |run| && a in run[i].nodes && a in run[n].nodes
    && EngineAt(run, a, n).height > 0 && Decides(cfg, run, a, EngineAt(run, a, n).height - 1, i)
    && EngineAt(run, a, n).parent == EngineAt(run, a, i).parent
  }

  /** The engine's parent is the one left by the step that decided the height before, or its first one. */
  ghost predicate HasParent(cfg: Config, run: seq<System>, a: Address, n: nat) {
    && n < |run| && a in run[0].nodes && a in run[n].nodes
    && var (e, first) := (EngineAt(run, a, n), EngineAt(run, a, 0));
       (e.height == first.height && e.parent == first.parent) || exists i: nat :: Inherits(cfg, run, a, i, n)
  }

  lemma ParentStep(cfg: Config, run: seq<System>, a: Address, m: nat, n: nat)
    requires n == m + 1 && HasParent(cfg, run, a, m) && Stepped(cfg, run, a, n)
    ensures HasParent(cfg, run, a, n)
  {
    hide Decides;
    if EngineAt(run, a, n).height == EngineAt(run, a, m).height + 1 {
      assert Inherits(cfg, run, a, n, n);
    } else if i: nat :| Inherits(cfg, run, a, i, m) {
      assert Inherits(cfg, run, a, i, n);
    }
  }

  lemma {:induction false} ParentIsLast(cfg: Config, run: seq<System>, a: Address, n: nat)
    requires Fits(cfg.powers) && IsRun(cfg, run) && n < |run| && a in run[0].nodes
    ensures HasParent(cfg, run, a, n)
  {
    hide IsRun, Fits;
    if n > 0 {
      hide *;
      ParentIsLast(cfg, run, a, n - 1);
      OneStep(cfg, run, a, n);
      ParentStep(cfg, run, a, n - 1, n);
    }
  }
}
