/** The pieces that the example runs of the counters are made of. */
module SampleRuns {
  import opened Primitives
  import opened AttestationInfos
  import opened States
  import opened Runs

  /** A validator with epochs of forty blocks and a window of twenty. */
  function Sample(epoch: U64, start: U64): AttestationInfo {
    AttestationInfo(1, 2, 0, 40, epoch, start, 20)
  }

  function NodeAnswers(done: Result<bool>, status: Result<TransactionStatus>): Answers {
    Answers(Err, Err, done, Sent(1, true), status)
  }

  /** The first header is that of the assigned block. */
  ghost predicate Opens(r: Run)
    requires r.Shaped()
  {
    && r.inputs != [] && r.inputs[0].Header? && r.first.Sane()
    && r.inputs[0].number == AssignedBlock(r.env, r.first)
  }

  lemma BlockStarts(r: Run)
    requires r.Valid() && Opens(r)
    ensures r.State(1) == Attesting(r.first, ParamsFor(r.first, r.inputs[0].number, r.inputs[0].hash))
    ensures r.worlds[1].log == [] && r.worlds[1].ticks == [] && !r.worlds[1].halted && !r.Adopts(0)
  {
    AssignedBlockPlacement(r.env, r.first);
    assert r.Linked(0);
  }
}
