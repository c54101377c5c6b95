/** Whole runs of the main loop: the world it owns, its inputs, and the world after every step. */
module Runs {
  import opened Primitives
  import opened AttestationInfos
  import opened States

  /** The payload of a reorg notice is only logged and sent back to the queue. */
  datatype ReorgData = ReorgData(id: nat)

  datatype Input =
    | Header(number: U64, hash: Felt, answers: Answers)
    | Event(staker: Felt, epoch: U64)
    | ReorgNotice(data: ReorgData)                      // a subscription task queues a notice
    | TakeReorg(answer: Result<AttestationInfo>)        // the main loop takes the oldest notice

  datatype World = World(
    state: State,
    reorgs: seq<ReorgData>,
    log: seq<Call>,
    ticks: seq<Counter>,
    halted: bool)
  {
    /** The value of an exported counter. */
    function Value(counter: Counter): nat {
      multiset(ticks)[counter]
    }
  }

  function Boot(env: Env, info: AttestationInfo): World
    requires info.Assignable()
  {
    World(FromAttestationInfo(env, info), [], [], [], false)
  }

  /** What an input does. A halted process does nothing; an empty queue leaves the reorg branch asleep. */
  function EffectOf(env: Env, w: World, input: Input): Effect {
    if w.halted then Effect(Panicked, [], [])
    else
      match input
      case Header(n, hash, a) => OnHeader(env, w.state, n, hash, a)
      case Event(staker, epoch) => OnEvent(w.state, staker, epoch)
      case ReorgNotice(_) => Effect(Done(w.state), [], [])
      case TakeReorg(answer) => if w.reorgs == [] then Effect(Done(w.state), [], []) else OnReorg(env, answer)
  }

  /** The reorg queue: notices join at the back, and a notice whose re-initialisation failed joins again. */
  function QueueAfter(w: World, input: Input): seq<ReorgData> {
    if w.halted then w.reorgs
    else
      match input
      case ReorgNotice(data) => w.reorgs + [data]
      case TakeReorg(answer) =>
        if w.reorgs == [] then []
        else if answer.Ok? then w.reorgs[1..]
        else w.reorgs[1..] + [w.reorgs[0]]
      case _ => w.reorgs
  }

  function Next(env: Env, w: World, input: Input): World {
    var e := EffectOf(env, w, input);
    World(
      if e.outcome.Done? then e.outcome.state else w.state,
      QueueAfter(w, input),
      w.log + e.calls,
      w.ticks + e.ticks,
      w.halted || e.outcome.Panicked?)
  }

  /** This effect made the loop adopt a new attestation info, and so begin a new session. */
  predicate Adoption(e: Effect) {
    e.outcome.Done? && e.calls != [] && e.calls[0].GetAttestationInfo?
  }

  /** The world after a sequence of inputs. */
  function Fold(env: Env, w: World, inputs: seq<Input>): World {
    if inputs == [] then w
    else
      var last := |inputs| - 1;
      Next(env, Fold(env, w, inputs[..last]), inputs[last])
  }

  /** The record of a run: the info adopted at start-up, the inputs in the order the main loop takes them,
      what each of them did, and the worlds in between. */
  datatype Run = Run(env: Env, first: AttestationInfo, inputs: seq<Input>, effects: seq<Effect>, worlds: seq<World>) {
    ghost predicate Shaped() {
      |effects| == |inputs| && |worlds| == |inputs| + 1
    }

    /** Entry `i` of the record is a step of the main loop. */
    ghost predicate Linked(i: nat)
      requires Shaped() && i < |inputs|
    {
      effects[i] == EffectOf(env, worlds[i], inputs[i]) && worlds[i + 1] == Next(env, worlds[i], inputs[i])
    }

    ghost predicate Valid() {
      && Shaped()
      && first.Assignable()
      && worlds[0] == Boot(env, first)
      && forall i: nat {:trigger Linked(i)} :: i < |inputs| ==> Linked(i)
    }

    /** The state after the first `i` inputs. */
    ghost function State(i: nat): State
      requires Shaped() && i <= |inputs|
    {
      worlds[i].state
    }

    /** Input number `i` made the loop adopt a new attestation info, and so begin a new session. */
    ghost predicate Adopts(i: nat)
      requires Shaped() && i < |inputs|
    {
      Adoption(effects[i])
    }

    /** No info is adopted by inputs `i`, ..., `j - 1`: the worlds numbered `i`, ..., `j` share a session. */
    ghost predicate SameSession(i: nat, j: nat)
      requires Shaped() && j <= |inputs|
    {
      forall k: nat :: i <= k < j ==> !Adopts(k)
    }

    /** The run with one more input. */
    ghost function Extend(input: Input): Run
      requires Shaped()
    {
      var w := worlds[|inputs|];
      Run(env, first, inputs + [input], effects + [EffectOf(env, w, input)], worlds + [Next(env, w, input)])
    }
  }

  ghost function Start(env: Env, first: AttestationInfo): (r: Run)
    requires first.Assignable()
    ensures r.Valid()
  {
    Run(env, first, [], [], [Boot(env, first)])
  }

  /** One more input makes one more entry. */
  lemma ExtendValid(r: Run, input: Input)
    requires r.Valid()
    ensures var e := r.Extend(input);
            && e.Valid() && e.env == r.env && e.first == r.first && e.inputs == r.inputs + [input]
            && e.worlds[|e.inputs|] == Next(r.env, r.worlds[|r.inputs|], input)
  {
    var e := r.Extend(input);
    forall i: nat | i < |e.inputs| ensures e.Linked(i) {
      assert i < |r.inputs| ==> r.Linked(i);
    }
  }

  /** Every input sequence has a run. */
  lemma {:induction false} EveryInputSequenceRuns(env: Env, first: AttestationInfo, inputs: seq<Input>) returns (r: Run)
    requires first.Assignable()
    ensures r.Valid() && r.env == env && r.first == first && r.inputs == inputs
  {
    if inputs == [] {
      r := Start(env, first);
    } else {
      var last := |inputs| - 1;
      var before := EveryInputSequenceRuns(env, first, inputs[..last]);
      ExtendValid(before, inputs[last]);
      r := before.Extend(inputs[last]);
    }
  }

  /** The worlds of a run are the folds over its inputs, so the inputs determine the run. */
  lemma {:induction false} RunIsFold(r: Run, i: nat)
    requires r.Valid() && i <= |r.inputs|
    ensures r.worlds[i] == Fold(r.env, Boot(r.env, r.first), r.inputs[..i])
  {
    if i > 0 {
      RunIsFold(r, i - 1);
      assert r.Linked(i - 1);
      assert r.inputs[..i][..i - 1] == r.inputs[..i - 1];
    }
  }
}
