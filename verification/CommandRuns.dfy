/** Whole runs of the command handler: channel state, nicknames and the provenance of operators. */
module CommandRuns {
  import opened Base
  import opened Channels
  import opened Abuse
  import opened Commands

  /** What can happen to a handler: a request, or a cleanup of the abuse records. */
  datatype Step =
    | Request(user: UserId, word: string, args: seq<string>, at: int)
    | Sweep(at: int)

  function Next(s: Server, step: Step): Server {
    match step
    case Request(u, word, args, t) => Handle(s, u, word, args, t).0
    case Sweep(t) => s.(gate := s.gate.(records := Cleanup(s.gate.records, t)))
  }

  /** The state after a run. */
  function Run(s: Server, steps: seq<Step>): Server {
    if steps == [] then s else Next(Run(s, steps[..|steps| - 1]), steps[|steps| - 1])
  }

  /** The state in which step `i` of a run from the empty server is taken. */
  function Before(steps: seq<Step>, i: nat): Server
    requires i <= |steps|
  {
    Run(EMPTY_SERVER, steps[..i])
  }

  lemma BeforeNext(steps: seq<Step>, i: nat)
    requires i < |steps|
    ensures Before(steps, i + 1) == Next(Before(steps, i), steps[i])
  {
    assert steps[..i + 1][..i] == steps[..i];
  }

  lemma BeforePrefix(steps: seq<Step>, k: nat, i: nat)
    requires i <= k <= |steps|
    ensures Before(steps[..k], i) == Before(steps, i)
  {
    assert steps[..k][..i] == steps[..i];
  }

  /** A step either leaves the world alone or performs the requested command on it. */
  lemma NextWorld(s: Server, step: Step)
    ensures var w, w' := s.world, Next(s, step).world;
      || w' == w
      || (step.Request? && w' == Act(w, step.user, VerbOf(step.word), step.args).0)
  {
  }

  /** In every run the channels stay consistent, filed under their own valid names, and the nickname
      entries owned. */
  lemma {:induction false} RunKeepsWorld(steps: seq<Step>)
    ensures var w := Run(EMPTY_SERVER, steps).world; Good(w) && NicksOwned(w)
    decreases |steps|
  {
    if steps != [] {
      var prefix, step := steps[..|steps| - 1], steps[|steps| - 1];
      RunKeepsWorld(prefix);
      var s := Run(EMPTY_SERVER, prefix);
      NextWorld(s, step);
      if step.Request? {
        ActKeepsGood(s.world, step.user, VerbOf(step.word), step.args);
        ActKeepsNicksOwned(s.world, step.user, VerbOf(step.word), step.args);
      }
    }
  }

  /** No step of any run moves a user other than the requester of a join into a channel, and a user other
      than the requester is moved out only if the requester is then an operator there. */
  lemma StepMovesMembers(s: Server, step: Step, name: string)
    ensures var before, after := Members(s.world, name), Members(Next(s, step).world, name);
      && (forall v | v in after - before :: step.Request? && VerbOf(step.word) == Join && v == step.user)
      && (forall v | v in before - after :: step.Request? && (v == step.user || step.user in Operators(s.world, name)))
  {
    NextWorld(s, step);
    if step.Request? {
      ActMovesMembers(s.world, step.user, VerbOf(step.word), step.args, name);
    }
  }

  // ----- Operator provenance ------------------------------------------------------

  /** One link of a chain of grants: at step `step` of the run, `holder` got the operator bit. */
  datatype Link = Link(step: nat, holder: UserId)

  /** A step of `u` that joins channel `name`, with `u` its only member afterwards. */
  ghost predicate FoundsAt(step: Step, after: World, u: UserId, name: string) {
    && step.Request? && step.user == u && VerbOf(step.word) == Join
    && Members(after, name) == {u} && u in Operators(after, name)
  }

  ghost predicate Founds(steps: seq<Step>, link: Link, name: string) {
    && link.step < |steps|
    && FoundsAt(steps[link.step], Before(steps, link.step + 1).world, link.holder, name)
  }

  /** A step of `granter`, then an operator of channel `name`, that grants the bit to `u` with +o. */
  ghost predicate GrantsAt(step: Step, before: World, granter: UserId, u: UserId, name: string) {
    && step.Request? && step.user == granter && VerbOf(step.word) == Mode
    && |step.args| >= 3 && step.args[0] == name && step.args[1] == "+o"
    && TargetId(before, step.args[2]) == u
    && granter in Operators(before, name)
  }

  ghost predicate Grants(steps: seq<Step>, granter: UserId, link: Link, name: string) {
    && link.step < |steps|
    && GrantsAt(steps[link.step], Before(steps, link.step).world, granter, link.holder, name)
  }

  /** The holder of a link is an operator at every point after its step, up to `until`. */
  ghost predicate HoldsUntil(steps: seq<Step>, link: Link, until: nat, name: string)
    requires until <= |steps|
  {
    forall j | link.step < j <= until :: link.holder in Operators(Before(steps, j).world, name)
  }

  /** Two successive links: the holder of the first, an operator all the while, grants the second. */
  ghost predicate Linked(steps: seq<Step>, first: Link, second: Link, name: string) {
    && first.step < second.step < |steps|
    && Grants(steps, first.holder, second, name)
    && HoldsUntil(steps, first, second.step, name)
  }

  /** A chain of grants, strictly ordered in time, from a founder down to `u`, along which every holder
      keeps the operator bit until passing it on, and `u` up to the end of the run. */
  ghost predicate IsChain(steps: seq<Step>, chain: seq<Link>, name: string, u: UserId) {
    && chain != []
    && chain[|chain| - 1].holder == u
    && Founds(steps, chain[0], name)
    && (forall k | 0 < k < |chain| :: Linked(steps, chain[k - 1], chain[k], name))
    && HoldsUntil(steps, chain[|chain| - 1], |steps|, name)
  }

  lemma FoundsExtends(steps: seq<Step>, k: nat, link: Link, name: string)
    requires k <= |steps| && Founds(steps[..k], link, name)
    ensures Founds(steps, link, name)
  {
    var step, after := steps[..k][link.step], Before(steps[..k], link.step + 1).world;
    assert FoundsAt(step, after, link.holder, name);
    BeforePrefix(steps, k, link.step + 1);
    assert step == steps[link.step] && after == Before(steps, link.step + 1).world;
  }

  lemma HoldsExtends(steps: seq<Step>, k: nat, link: Link, until: nat, name: string)
    requires until <= k <= |steps| && HoldsUntil(steps[..k], link, until, name)
    ensures HoldsUntil(steps, link, until, name)
  {
    forall j | link.step < j <= until ensures link.holder in Operators(Before(steps, j).world, name) {
      BeforePrefix(steps, k, j);
    }
  }

  lemma LinkedExtends(steps: seq<Step>, k: nat, first: Link, second: Link, name: string)
    requires k <= |steps| && Linked(steps[..k], first, second, name)
    ensures Linked(steps, first, second, name)
  {
    BeforePrefix(steps, k, second.step);
    HoldsExtends(steps, k, first, second.step, name);
  }

  lemma LinksExtend(steps: seq<Step>, k: nat, chain: seq<Link>, name: string)
    requires k <= |steps| && forall i | 0 < i < |chain| :: Linked(steps[..k], chain[i - 1], chain[i], name)
    ensures forall i | 0 < i < |chain| :: Linked(steps, chain[i - 1], chain[i], name)
  {
    forall i | 0 < i < |chain| ensures Linked(steps, chain[i - 1], chain[i], name) {
      LinkedExtends(steps, k, chain[i - 1], chain[i], name);
    }
  }

  /** A chain of a part of the run, as far as it goes. */
  lemma ChainExtends(steps: seq<Step>, k: nat, chain: seq<Link>, name: string, u: UserId)
    requires k <= |steps| && IsChain(steps[..k], chain, name, u)
    ensures chain[|chain| - 1].step < k
    ensures Founds(steps, chain[0], name)
    ensures forall i | 0 < i < |chain| :: Linked(steps, chain[i - 1], chain[i], name)
    ensures HoldsUntil(steps, chain[|chain| - 1], k, name)
  {
    assert |chain| > 1 ==> Linked(steps[..k], chain[|chain| - 2], chain[|chain| - 1], name);
    FoundsExtends(steps, k, chain[0], name);
    LinksExtend(steps, k, chain, name);
    HoldsExtends(steps, k, chain[|chain| - 1], k, name);
  }

  lemma ChainGrows(steps: seq<Step>, chain: seq<Link>, link: Link, name: string)
    requires chain != [] && Founds(steps, chain[0], name)
    requires forall i | 0 < i < |chain| :: Linked(steps, chain[i - 1], chain[i], name)
    requires Linked(steps, chain[|chain| - 1], link, name) && HoldsUntil(steps, link, |steps|, name)
    ensures IsChain(steps, chain + [link], name, link.holder)
  {
    var longer := chain + [link];
    forall k | 0 < k < |longer| ensures Linked(steps, longer[k - 1], longer[k], name) {
      assert longer[k - 1] == chain[k - 1];
      assert k < |chain| ==> longer[k] == chain[k];
    }
  }

  /** How the last step of a run made `u` an operator. */
  lemma LastStepMakes(steps: seq<Step>, name: string, u: UserId)
    requires steps != []
    requires u in Operators(Run(EMPTY_SERVER, steps).world, name)
    requires u !in Operators(Run(EMPTY_SERVER, steps[..|steps| - 1]).world, name)
    ensures steps[|steps| - 1].Request?
    ensures || Founds(steps, Link(|steps| - 1, u), name)
            || (&& Grants(steps, steps[|steps| - 1].user, Link(|steps| - 1, u), name)
                && steps[|steps| - 1].user in Operators(Run(EMPTY_SERVER, steps[..|steps| - 1]).world, name))
  {
    var n := |steps| - 1;
    var s, step := Run(EMPTY_SERVER, steps[..n]), steps[n];
    assert Before(steps, n) == s;
    BeforeNext(steps, n);
    assert steps[..n + 1] == steps;
    NextWorld(s, step);
    ActMakesOperator(s.world, step.user, VerbOf(step.word), step.args, name, u);
  }

  /** An operator at the end of a run that has held the bit up to its last step. */
  lemma HoldsToEnd(steps: seq<Step>, link: Link, name: string)
    requires steps != [] && HoldsUntil(steps, link, |steps| - 1, name)
    requires link.holder in Operators(Run(EMPTY_SERVER, steps).world, name)
    ensures HoldsUntil(steps, link, |steps|, name)
  {
    forall j | link.step < j <= |steps| ensures link.holder in Operators(Before(steps, j).world, name) {
      if j == |steps| {
        assert steps[..j] == steps;
      }
    }
  }

  /** Every operator bit held at the end of a run traces back, through finitely many strictly earlier +o
      grants by users who were operators from getting the bit until then, to a join that left the joiner
      alone in the channel; and its holder has held it ever since it was granted. */
  lemma {:induction false} OperatorProvenance(steps: seq<Step>, name: string, u: UserId) returns (chain: seq<Link>)
    requires u in Operators(Run(EMPTY_SERVER, steps).world, name)
    ensures IsChain(steps, chain, name, u)
    decreases |steps|
  {
    var n := |steps| - 1;
    var prefix := steps[..n];
    if u in Operators(Run(EMPTY_SERVER, prefix).world, name) {
      chain := OperatorProvenance(prefix, name, u);
      ChainExtends(steps, n, chain, name, u);
      HoldsToEnd(steps, chain[|chain| - 1], name);
    } else {
      var link := Link(n, u);
      LastStepMakes(steps, name, u);
      assert HoldsUntil(steps, link, n, name);
      HoldsToEnd(steps, link, name);
      if Founds(steps, link, name) {
        chain := [link];
      } else {
        var earlier := OperatorProvenance(prefix, name, steps[n].user);
        ChainExtends(steps, n, earlier, name, steps[n].user);
        ChainGrows(steps, earlier, link, name);
        chain := earlier + [link];
      }
    }
  }

  // ----- Nicknames over runs ------------------------------------------------------

  /** The step carries out a nick request. */
  predicate TakesNick(s: Server, step: Step) {
    && step.Request? && VerbOf(step.word) == Nick && step.args != []
    && Handle(s, step.user, step.word, step.args, step.at).1 == Done
  }

  /** No step carries out a request for the id of another user of the run as a nickname. */
  ghost predicate NoForeignIdAsNick(steps: seq<Step>) {
    forall i, j | 0 <= i < |steps| && 0 <= j < |steps| && TakesNick(Before(steps, i), steps[i]) && steps[j].Request? ::
      steps[i].args[0] == steps[j].user ==> steps[i].user == steps[j].user
  }

  /** An entry keyed by the id of a user of the run belongs to that user. */
  ghost predicate OwnIdsOnly(steps: seq<Step>, w: World) {
    forall i | 0 <= i < |steps| && steps[i].Request? && steps[i].user in w.nickToUser ::
      w.nickToUser[steps[i].user] == steps[i].user
  }

  /** A command touches at most one nickname entry other than by erasing: the requested one. */
  lemma ActSetsOneNick(w: World, u: UserId, verb: Verb, args: seq<string>, n: string)
    requires n in Act(w, u, verb, args).0.nickToUser
    ensures var owner := Act(w, u, verb, args).0.nickToUser[n];
      || (n in w.nickToUser && w.nickToUser[n] == owner)
      || (verb == Nick && args != [] && args[0] == n && owner == u)
  {
  }

  /** A nick request that changes the world is carried out. */
  lemma ChangingNickIsTaken(s: Server, step: Step)
    requires step.Request? && VerbOf(step.word) == Nick && step.args != [] && Next(s, step).world != s.world
    ensures TakesNick(s, step)
  {
  }

  lemma OwnIdsStep(steps: seq<Step>, w: World, w': World, i: nat)
    requires i < |steps| && steps[i].Request?
    requires w == Before(steps, i).world && w' == Next(Before(steps, i), steps[i]).world && w' != w
    requires w' == Act(w, steps[i].user, VerbOf(steps[i].word), steps[i].args).0
    requires NoForeignIdAsNick(steps) && NicksMirrored(w) && OwnIdsOnly(steps, w)
    ensures NicksMirrored(w') && OwnIdsOnly(steps, w')
  {
    var u, verb, args := steps[i].user, VerbOf(steps[i].word), steps[i].args;
    NicksMirroredIff(w, u, verb, args);
    if verb == Nick && args != [] {
      ChangingNickIsTaken(Before(steps, i), steps[i]);
    }
    forall j | 0 <= j < |steps| && steps[j].Request? && steps[j].user in w'.nickToUser
      ensures w'.nickToUser[steps[j].user] == steps[j].user
    {
      ActSetsOneNick(w, u, verb, args, steps[j].user);
    }
  }

  lemma {:induction false} NicksMirroredUpTo(steps: seq<Step>, k: nat)
    requires k <= |steps| && NoForeignIdAsNick(steps)
    ensures NicksMirrored(Before(steps, k).world) && OwnIdsOnly(steps, Before(steps, k).world)
    decreases k
  {
    if k > 0 {
      NicksMirroredUpTo(steps, k - 1);
      BeforeNext(steps, k - 1);
      var w, w' := Before(steps, k - 1).world, Before(steps, k).world;
      NextWorld(Before(steps, k - 1), steps[k - 1]);
      if w' != w {
        OwnIdsStep(steps, w, w', k - 1);
      }
    }
  }

  /** The nickname tables are inverse to one another in every run in which nobody takes another
      user's id as a nickname. */
  lemma NicksMirroredInRuns(steps: seq<Step>)
    requires NoForeignIdAsNick(steps)
    ensures NicksMirrored(Run(EMPTY_SERVER, steps).world)
  {
    NicksMirroredUpTo(steps, |steps|);
    assert steps[..|steps|] == steps;
  }

  /** The step carries out a nick request that erases the entry of somebody else. */
  predicate CarriesOutErasure(s: Server, step: Step) {
    TakesNick(s, step) && ErasesForeignNick(s.world, step.user, VerbOf(step.word), step.args)
  }

  lemma StepKeepsNicksIff(s: Server, step: Step)
    requires NicksMirrored(s.world)
    ensures NicksMirrored(Next(s, step).world) <==> !CarriesOutErasure(s, step)
  {
    NextWorld(s, step);
    if step.Request? {
      NicksMirroredIff(s.world, step.user, VerbOf(step.word), step.args);
      if VerbOf(step.word) == Nick && step.args != [] {
        TakenNickChanges(s, step);
        if Next(s, step).world != s.world {
          ChangingNickIsTaken(s, step);
        }
      }
    }
  }

  lemma TakenNickChanges(s: Server, step: Step)
    ensures TakesNick(s, step) ==> Next(s, step).world == Act(s.world, step.user, VerbOf(step.word), step.args).0
  {
  }

  /** Step `i` of the run carries out such a request. */
  predicate ErasesAt(steps: seq<Step>, i: nat) {
    i < |steps| && CarriesOutErasure(Before(steps, i), steps[i])
  }

  lemma ErasesAtPrefix(steps: seq<Step>, k: nat, i: nat)
    requires i < k <= |steps|
    ensures ErasesAt(steps[..k], i) <==> ErasesAt(steps, i)
  {
    BeforePrefix(steps, k, i);
    assert steps[..k][i] == steps[i];
  }

  lemma LastStepKeepsNicksIff(steps: seq<Step>)
    requires steps != [] && NicksMirrored(Before(steps, |steps| - 1).world)
    ensures NicksMirrored(Run(EMPTY_SERVER, steps).world) <==> !ErasesAt(steps, |steps| - 1)
  {
    BeforeNext(steps, |steps| - 1);
    assert steps[..|steps|] == steps;
    StepKeepsNicksIff(Before(steps, |steps| - 1), steps[|steps| - 1]);
  }

  /** In every run in which no such request has been carried out before the last step, the tables are
      inverse to one another at the end exactly if the last step carries out none. */
  lemma {:induction false} NicksMirroredInRunsIff(steps: seq<Step>)
    requires forall i | 0 <= i < |steps| - 1 :: !ErasesAt(steps, i)
    ensures NicksMirrored(Run(EMPTY_SERVER, steps).world) <==> (steps == [] || !ErasesAt(steps, |steps| - 1))
    decreases |steps|
  {
    if steps != [] {
      var n := |steps| - 1;
      forall i | 0 <= i < n ensures !ErasesAt(steps[..n], i) {
        ErasesAtPrefix(steps, n, i);
      }
      NicksMirroredInRunsIff(steps[..n]);
      LastStepKeepsNicksIff(steps);
    }
  }
}
