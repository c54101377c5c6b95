/** The queue of reorg notices. */
module Reorgs {
  import opened Runs

  /** The input queues notice `d`. */
  predicate Queues(w: World, input: Input, d: ReorgData) {
    input.ReorgNotice? && input.data == d && !w.halted
  }

  /** The input takes the oldest notice and the node answers, so the loop does not put the notice back. */
  predicate Serves(w: World, input: Input) {
    input.TakeReorg? && input.answer.Ok? && !w.halted && w.reorgs != []
  }

  /** How often notice `d` was queued during the first `n` inputs. */
  ghost function Arrived(r: Run, n: nat, d: ReorgData): nat
    requires r.Shaped() && n <= |r.inputs|
  {
    if n == 0 then 0
    else Arrived(r, n - 1, d) + if Queues(r.worlds[n - 1], r.inputs[n - 1], d) then 1 else 0
  }

  /** Input `k` took the oldest notice `d` off the queue and re-initialised the state with what the node answered, or
      died of that answer. */
  ghost predicate Reinitialises(r: Run, k: nat, d: ReorgData)
    requires r.Shaped() && k < |r.inputs|
  {
    && r.inputs[k].TakeReorg? && r.worlds[k].reorgs != [] && r.worlds[k].reorgs[0] == d
    && (r.Adopts(k) || (!r.worlds[k].halted && r.worlds[k + 1].halted))
  }

  /** How often notice `d` was served during the first `n` inputs. */
  ghost function Served(r: Run, n: nat, d: ReorgData): nat
    requires r.Shaped() && n <= |r.inputs|
  {
    if n == 0 then 0 else Served(r, n - 1, d) + if Reinitialises(r, n - 1, d) then 1 else 0
  }

  /** How often notice `d` waits in a queue. */
  function Waiting(queue: seq<ReorgData>, d: ReorgData): nat {
    multiset(queue)[d]
  }

  /** The loop keeps a notice from going back exactly when it re-initialised the state, or died doing so. */
  lemma ServingReinitialises(r: Run, k: nat, d: ReorgData)
    requires r.Valid() && k < |r.inputs|
    ensures Reinitialises(r, k, d) <==> Serves(r.worlds[k], r.inputs[k]) && r.worlds[k].reorgs[0] == d
  {
    assert r.Linked(k);
  }

  lemma QueueStep(w: World, input: Input, d: ReorgData)
    ensures Waiting(QueueAfter(w, input), d) + (if Serves(w, input) && w.reorgs[0] == d then 1 else 0)
            == Waiting(w.reorgs, d) + if Queues(w, input, d) then 1 else 0
  {
    if input.TakeReorg? && w.reorgs != [] {
      assert w.reorgs == [w.reorgs[0]] + w.reorgs[1..];
    }
  }

  lemma QueueAt(r: Run, k: nat, d: ReorgData)
    requires r.Valid() && k < |r.inputs|
    ensures Waiting(r.worlds[k + 1].reorgs, d) + (if Reinitialises(r, k, d) then 1 else 0)
            == Waiting(r.worlds[k].reorgs, d) + if Queues(r.worlds[k], r.inputs[k], d) then 1 else 0
  {
    assert r.Linked(k);
    QueueStep(r.worlds[k], r.inputs[k], d);
    ServingReinitialises(r, k, d);
  }

  /** No reorg is forgotten: as often as a notice arrived, it still waits, or it was taken and the state was
      re-initialised, unless the process died of the node's answer. */
  lemma {:induction false} NoReorgIsLost(r: Run, n: nat, d: ReorgData)
    requires r.Valid() && n <= |r.inputs|
    ensures Arrived(r, n, d) == Served(r, n, d) + Waiting(r.worlds[n].reorgs, d)
  {
    if n > 0 {
      NoReorgIsLost(r, n - 1, d);
      QueueAt(r, n - 1, d);
    }
  }

  /** The notices that joined the queue during the first `n` inputs, in order: new ones, and those taken whose
      re-initialisation failed. */
  ghost function Joined(r: Run, n: nat): seq<ReorgData>
    requires r.Shaped() && n <= |r.inputs|
  {
    if n == 0 then []
    else
      var w, input := r.worlds[n - 1], r.inputs[n - 1];
      Joined(r, n - 1) +
      if w.halted then []
      else if input.ReorgNotice? then [input.data]
      else if input.TakeReorg? && input.answer.Err? && w.reorgs != [] then [w.reorgs[0]]
      else []
  }

  /** The notices that the main loop took during the first `n` inputs, in order. */
  ghost function Taken(r: Run, n: nat): seq<ReorgData>
    requires r.Shaped() && n <= |r.inputs|
  {
    if n == 0 then []
    else
      var w := r.worlds[n - 1];
      Taken(r, n - 1) + if !w.halted && r.inputs[n - 1].TakeReorg? && w.reorgs != [] then [w.reorgs[0]] else []
  }

  lemma FirstInStep(w: World, input: Input, joined: seq<ReorgData>, taken: seq<ReorgData>)
    requires joined == taken + w.reorgs
    ensures input.TakeReorg? && !w.halted && w.reorgs != [] ==>
              joined + (if input.answer.Err? then [w.reorgs[0]] else []) ==
              taken + [w.reorgs[0]] + QueueAfter(w, input)
    ensures input.ReorgNotice? && !w.halted ==> joined + [input.data] == taken + QueueAfter(w, input)
    ensures w.halted || input.Header? || input.Event? || (input.TakeReorg? && w.reorgs == []) ==>
              QueueAfter(w, input) == w.reorgs
  {
    if w.reorgs != [] {
      assert w.reorgs == [w.reorgs[0]] + w.reorgs[1..];
    }
  }

  /** First in, first out. Notices are taken in the order in which they joined, where one whose re-initialisation
      failed joins again behind all that wait; and those that wait are the ones that joined last. */
  lemma {:induction false} FirstInFirstOut(r: Run, n: nat)
    requires r.Valid() && n <= |r.inputs|
    ensures Joined(r, n) == Taken(r, n) + r.worlds[n].reorgs
  {
    if n > 0 {
      FirstInFirstOut(r, n - 1);
      assert r.Linked(n - 1);
      FirstInStep(r.worlds[n - 1], r.inputs[n - 1], Joined(r, n - 1), Taken(r, n - 1));
    }
  }
}
