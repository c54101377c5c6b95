/** What the signature on a transaction commits its sender to. */
module Commitments {
  import opened Primitives
  import opened Calls
  import opened TransactionHashes

  /** Everything the hash fixes: all fields but the signature and the two data-availability modes. */
  predicate SameCommitment(tx1: InvokeTransaction, chainId1: Felt, tx2: InvokeTransaction, chainId2: Felt) {
    && chainId1 == chainId2
    && tx1.senderAddress == tx2.senderAddress
    && tx1.calldata == tx2.calldata
    && tx1.nonce == tx2.nonce
    && tx1.l1Gas == tx2.l1Gas && tx1.l1DataGas == tx2.l1DataGas && tx1.l2Gas == tx2.l2Gas
    && tx1.tip == tx2.tip
    && tx1.paymasterData == tx2.paymasterData
    && tx1.accountDeploymentData == tx2.accountDeploymentData
    && tx1.isQuery == tx2.isQuery
  }

  lemma ElemsInjective(a: seq<Felt>, b: seq<Felt>)
    requires Elems(a) == Elems(b)
    ensures a == b
  {
    assert |a| == |Elems(a)| == |b|;
    forall i | 0 <= i < |a| ensures a[i] == b[i] {
      assert Elems(a)[i] == Elem(a[i]) && Elems(b)[i] == Elem(b[i]);
    }
  }

  lemma PackedElemInjective(resource: Resource, bounds1: ResourceBounds, bounds2: ResourceBounds)
    requires PackedElem(resource, bounds1) == PackedElem(resource, bounds2)
    ensures bounds1 == bounds2
  {
    PackedInjective(resource, bounds1, resource, bounds2);
  }

  lemma FeeTermInjective(tx1: InvokeTransaction, tx2: InvokeTransaction)
    requires FeeTerm(tx1) == FeeTerm(tx2)
    ensures tx1.tip == tx2.tip && tx1.l1Gas == tx2.l1Gas && tx1.l2Gas == tx2.l2Gas && tx1.l1DataGas == tx2.l1DataGas
  {
    var a, b := FeeTerm(tx1).absorbed, FeeTerm(tx2).absorbed;
    assert a[0] == b[0] && a[1] == b[1] && a[2] == b[2] && a[3] == b[3];
    PackedElemInjective(L1Gas, tx1.l1Gas, tx2.l1Gas);
    PackedElemInjective(L2Gas, tx1.l2Gas, tx2.l2Gas);
    PackedElemInjective(L1DataGas, tx1.l1DataGas, tx2.l1DataGas);
  }

  /** With Poseidon as a free constructor, two transactions have the same hash exactly when they agree on every
      committed field. */
  lemma HashCommits(tx1: InvokeTransaction, chainId1: Felt, tx2: InvokeTransaction, chainId2: Felt)
    ensures TransactionHash(tx1, chainId1) == TransactionHash(tx2, chainId2) <==>
            SameCommitment(tx1, chainId1, tx2, chainId2)
  {
    if TransactionHash(tx1, chainId1) == TransactionHash(tx2, chainId2) {
      var a, b := TransactionHash(tx1, chainId1).absorbed, TransactionHash(tx2, chainId2).absorbed;
      assert a[1] == b[1] && a[2] == b[2] && a[3] == b[3] && a[4] == b[4];
      assert a[5] == b[5] && a[6] == b[6] && a[8] == b[8] && a[9] == b[9];
      FeeTermInjective(tx1, tx2);
      ElemsInjective(tx1.paymasterData, tx2.paymasterData);
      ElemsInjective(tx1.accountDeploymentData, tx2.accountDeploymentData);
      ElemsInjective(tx1.calldata, tx2.calldata);
    }
  }

  /** What an account is asked to execute. */
  datatype Execution = Execution(
    calls: seq<AccountCall>,
    nonce: Felt,
    l1Gas: ResourceBounds,
    l1DataGas: ResourceBounds,
    l2Gas: ResourceBounds,
    tip: U64)

  /** The request that is sent to the signer. */
  function GetInvokeRequest(address: Felt, execution: Execution, queryOnly: bool): InvokeTransaction {
    InvokeTransaction(address, Encoding(execution.calls), [], execution.nonce,
                      execution.l1Gas, execution.l1DataGas, execution.l2Gas, execution.tip,
                      [], [], DataAvailabilityMode.L1, DataAvailabilityMode.L1, queryOnly)
  }

  /** A signed request fixes the whole execution: equal hashes mean the same account on the same chain making the
      same list of calls with the same nonce, bounds and tip, for real or as a query. */
  lemma RequestCommitsToExecution(address1: Felt, execution1: Execution, query1: bool, chainId1: Felt,
                                  address2: Felt, execution2: Execution, query2: bool, chainId2: Felt)
    requires Countable(execution1.calls) && Countable(execution2.calls)
    ensures TransactionHash(GetInvokeRequest(address1, execution1, query1), chainId1) ==
            TransactionHash(GetInvokeRequest(address2, execution2, query2), chainId2) <==>
            address1 == address2 && execution1 == execution2 && query1 == query2 && chainId1 == chainId2
  {
    HashCommits(GetInvokeRequest(address1, execution1, query1), chainId1,
                GetInvokeRequest(address2, execution2, query2), chainId2);
    if Encoding(execution1.calls) == Encoding(execution2.calls) {
      EncodingInjective(execution1.calls, execution2.calls);
    }
  }

  /** The one call of an attestation: `attest(block_hash)` on the attestation contract. */
  function AttestCalls(contract: Felt, selector: Felt, blockHash: Felt): seq<AccountCall> {
    [AccountCall(contract, selector, [blockHash])]
  }

  /** An attestation for one block hash cannot pass for an attestation of another, whatever the other parameters. */
  lemma AttestationCommitsToBlockHash(address1: Felt, address2: Felt,
                                      e1: Execution, e2: Execution, query1: bool, query2: bool,
                                      chainId1: Felt, chainId2: Felt,
                                      contract1: Felt, contract2: Felt, selector1: Felt, selector2: Felt,
                                      blockHash1: Felt, blockHash2: Felt)
    requires e1.calls == AttestCalls(contract1, selector1, blockHash1)
    requires e2.calls == AttestCalls(contract2, selector2, blockHash2)
    requires blockHash1 != blockHash2
    ensures TransactionHash(GetInvokeRequest(address1, e1, query1), chainId1) !=
            TransactionHash(GetInvokeRequest(address2, e2, query2), chainId2)
  {
    assert e1.calls[0].calldata[0] != e2.calls[0].calldata[0];
    RequestCommitsToExecution(address1, e1, query1, chainId1, address2, e2, query2, chainId2);
  }

  /** What is signed for an execution, position by position: prefix, version, account, fees, no paymaster, chain,
      nonce, data-availability modes, no deployment data, and calldata that decodes to the calls. */
  lemma RequestLayout(address: Felt, execution: Execution, queryOnly: bool, chainId: Felt)
    requires Countable(execution.calls)
    ensures var request := GetInvokeRequest(address, execution, queryOnly);
            var hash := TransactionHash(request, chainId);
            && hash.Poseidon? && |hash.absorbed| == 10
            && IsNumber(hash.absorbed[0], ShortString("invoke"))
            && IsNumber(hash.absorbed[1], if queryOnly then 0x1_0000_0000_0000_0000_0000_0000_0000_0003 else 3)
            && IsNumber(hash.absorbed[2], address)
            && IsHashOf(hash.absorbed[3],
                        [execution.tip, PackedAs("L1_GAS", execution.l1Gas), PackedAs("L2_GAS", execution.l2Gas),
                         PackedAs("L1_DATA", execution.l1DataGas)])
            && IsHashOf(hash.absorbed[4], [])
            && IsNumber(hash.absorbed[5], chainId)
            && IsNumber(hash.absorbed[6], execution.nonce)
            && IsNumber(hash.absorbed[7], 0)
            && IsHashOf(hash.absorbed[8], [])
            && IsHashOf(hash.absorbed[9], request.calldata)
            && Decode(request.calldata) == Ok(Decoded(execution.calls, []))
            && request.signature == []
            && request.nonceMode == DataAvailabilityMode.L1 && request.feeMode == DataAvailabilityMode.L1
  {
    HashLayout(GetInvokeRequest(address, execution, queryOnly), chainId);
    DecodeEncoding(execution.calls, []);
    assert Encoding(execution.calls) + [] == Encoding(execution.calls);
  }

  /** What is signed for an attestation: one call of the attestation contract, with the block hash as its argument. */
  lemma AttestationLayout(address: Felt, execution: Execution, queryOnly: bool, chainId: Felt,
                          contract: Felt, selector: Felt, blockHash: Felt)
    requires execution.calls == AttestCalls(contract, selector, blockHash)
    ensures var hash := TransactionHash(GetInvokeRequest(address, execution, queryOnly), chainId);
            && hash.Poseidon? && |hash.absorbed| == 10
            && IsHashOf(hash.absorbed[9], [1, contract, selector, 1, blockHash])
  {
    var calls := execution.calls;
    EncodingLayout(calls, 0);
    EncodingLength(calls);
    assert calls[..0] == [] && calls[1..] == [];
    assert CalldataLengths(calls) == 4;
    var data := Encoding(calls);
    assert data[4] == data[4..5][0];
    assert data == [1, contract, selector, 1, blockHash];
    HashLayout(GetInvokeRequest(address, execution, queryOnly), chainId);
  }
}
