/** The call encoding of account transactions, and a decoder that inverts it. */
module Calls {
  import opened Primitives

  datatype AccountCall = AccountCall(to: Felt, selector: Felt, calldata: seq<Felt>)

  /** A length as a field element. */
  function LengthFelt(n: nat): Felt {
    n % STARK_PRIME
  }

  function EncodeCall(call: AccountCall): seq<Felt> {
    [call.to, call.selector, LengthFelt(|call.calldata|)] + call.calldata
  }

  function EncodeBody(calls: seq<AccountCall>): seq<Felt> {
    if calls == [] then [] else EncodeCall(calls[0]) + EncodeBody(calls[1..])
  }

  function Encoding(calls: seq<AccountCall>): seq<Felt> {
    [LengthFelt(|calls|)] + EncodeBody(calls)
  }

  /** Lengths that a field element can hold; every length a machine can hold is one. */
  predicate Countable(calls: seq<AccountCall>) {
    && |calls| < STARK_PRIME
    && forall i :: 0 <= i < |calls| ==> |calls[i].calldata| < STARK_PRIME
  }

  lemma {:induction false} EncodeBodySnoc(calls: seq<AccountCall>, last: AccountCall)
    ensures EncodeBody(calls + [last]) == EncodeBody(calls) + EncodeCall(last)
  {
    if calls == [] {
      assert [last][1..] == [] && EncodeBody([]) == [];
    } else {
      assert (calls + [last])[1..] == calls[1..] + [last];
      EncodeBodySnoc(calls[1..], last);
      assert EncodeCall(calls[0]) + (EncodeBody(calls[1..]) + EncodeCall(last)) ==
             EncodeCall(calls[0]) + EncodeBody(calls[1..]) + EncodeCall(last);
    }
  }

  /** `encode_calls`: one pass over the calls, pushing field elements. */
  method EncodeCalls(calls: seq<AccountCall>) returns (executeCalldata: seq<Felt>)
    ensures executeCalldata == Encoding(calls)
  {
    executeCalldata := [LengthFelt(|calls|)];
    for i := 0 to |calls|
      invariant executeCalldata == [LengthFelt(|calls|)] + EncodeBody(calls[..i])
    {
      var call := calls[i];
      EncodeBodySnoc(calls[..i], call);
      assert calls[..i + 1] == calls[..i] + [call];
      var before := executeCalldata;
      executeCalldata := executeCalldata + [call.to];
      executeCalldata := executeCalldata + [call.selector];
      executeCalldata := executeCalldata + [LengthFelt(|call.calldata|)];
      executeCalldata := executeCalldata + call.calldata;
      assert executeCalldata == before + EncodeCall(call);
    }
    assert calls[..|calls|] == calls;
  }

  datatype Decoded = Decoded(calls: seq<AccountCall>, rest: seq<Felt>)

  /** Reads `count` calls off the front of a sequence of field elements, led by the stored lengths alone. */
  function DecodeBody(data: seq<Felt>, count: nat): Result<Decoded>
    decreases count
  {
    if count == 0 then Ok(Decoded([], data))
    else if |data| < 3 || |data| - 3 < data[2] then Err
    else
      var end: nat := 3 + data[2] as nat;
      match DecodeBody(data[end..], count - 1)
      case Err => Err
      case Ok(d) => Ok(Decoded([AccountCall(data[0], data[1], data[3..end])] + d.calls, d.rest))
  }

  function Decode(data: seq<Felt>): Result<Decoded> {
    if data == [] then Err else DecodeBody(data[1..], data[0])
  }

  /** What the decoder finds in front of an encoded call. */
  lemma FrontCallDecodes(call: AccountCall, tail: seq<Felt>)
    requires |call.calldata| < STARK_PRIME
    ensures var data, end := EncodeCall(call) + tail, 3 + |call.calldata|;
            && end <= |data| && data[2] == |call.calldata|
            && AccountCall(data[0], data[1], data[3..end]) == call
            && data[end..] == tail
  {
    SmallLength(|call.calldata|);
  }

  lemma {:induction false} DecodeBodyEncoded(calls: seq<AccountCall>, rest: seq<Felt>)
    requires Countable(calls)
    ensures DecodeBody(EncodeBody(calls) + rest, |calls|) == Ok(Decoded(calls, rest))
  {
    if calls == [] {
      assert EncodeBody(calls) + rest == rest;
    } else {
      var call, others := calls[0], calls[1..];
      DecodeBodyEncoded(others, rest);
      assert calls == [call] + others;
      BodyOfCons(call, others, rest);
      FrontCallDecodes(call, EncodeBody(others) + rest);
    }
  }

  lemma SmallLength(n: nat)
    requires n < STARK_PRIME
    ensures LengthFelt(n) == n
  {
  }

  /** Round trip: the decoder gives back the calls and consumes the encoding exactly, whatever follows it. */
  lemma DecodeEncoding(calls: seq<AccountCall>, rest: seq<Felt>)
    requires Countable(calls)
    ensures Decode(Encoding(calls) + rest) == Ok(Decoded(calls, rest))
  {
    SmallLength(|calls|);
    assert (Encoding(calls) + rest)[1..] == EncodeBody(calls) + rest;
    DecodeBodyEncoded(calls, rest);
  }

  /** The call at the front of a sequence of field elements is the encoding of what the decoder reads there. */
  lemma CallInFront(data: seq<Felt>, end: nat)
    requires 3 <= end <= |data| && data[2] == end - 3
    ensures data == EncodeCall(AccountCall(data[0], data[1], data[3..end])) + data[end..]
  {
    SmallLength(data[2]);
  }

  lemma BodyOfCons(call: AccountCall, others: seq<AccountCall>, rest: seq<Felt>)
    ensures EncodeBody([call] + others) + rest == EncodeCall(call) + (EncodeBody(others) + rest)
  {
    assert ([call] + others)[1..] == others;
  }

  /** The other direction: whatever decodes is the encoding of what it decodes to, followed by the rest. */
  lemma {:induction false} EncodeBodyDecoded(data: seq<Felt>, count: nat)
    requires DecodeBody(data, count).Ok?
    ensures var d := DecodeBody(data, count).value;
            |d.calls| == count && data == EncodeBody(d.calls) + d.rest
    decreases count
  {
    if count > 0 {
      var end: nat := 3 + data[2] as nat;
      EncodeBodyDecoded(data[end..], count - 1);
      CallInFront(data, end);
      var tail := DecodeBody(data[end..], count - 1).value;
      BodyOfCons(AccountCall(data[0], data[1], data[3..end]), tail.calls, tail.rest);
    }
  }

  /** A sequence that decodes is the encoding of the decoded calls, followed by the rest. */
  lemma EncodingDecoded(data: seq<Felt>)
    requires Decode(data).Ok?
    ensures data == Encoding(Decode(data).value.calls) + Decode(data).value.rest
  {
    var count: nat := data[0];
    var body := data[1..];
    EncodeBodyDecoded(body, count);
    SmallLength(count);
    var d := Decode(data).value;
    assert LengthFelt(|d.calls|) == data[0];
    Cons(data[0], body, EncodeBody(d.calls), d.rest);
    assert data == [data[0]] + body;
  }

  lemma Cons(head: Felt, body: seq<Felt>, front: seq<Felt>, rest: seq<Felt>)
    requires body == front + rest
    ensures [head] + body == [head] + front + rest
  {
  }

  /** Different lists of calls have different encodings. */
  lemma EncodingInjective(a: seq<AccountCall>, b: seq<AccountCall>)
    requires Countable(a) && Countable(b) && Encoding(a) == Encoding(b)
    ensures a == b
  {
    DecodeEncoding(a, []);
    DecodeEncoding(b, []);
    assert Encoding(a) + [] == Encoding(b) + [];
  }

  function CalldataLengths(calls: seq<AccountCall>): nat {
    if calls == [] then 0 else 3 + |calls[0].calldata| + CalldataLengths(calls[1..])
  }

  /** One element for the count, three and the calldata for every call. */
  lemma {:induction false} EncodingLength(calls: seq<AccountCall>)
    ensures |EncodeBody(calls)| == CalldataLengths(calls) && |Encoding(calls)| == 1 + CalldataLengths(calls)
  {
    if calls != [] {
      EncodingLength(calls[1..]);
    }
  }

  /** Where a call lies in the encoding: target, selector, number of arguments, arguments, right behind the calls
      before it; and in front of all the number of calls. */
  lemma {:induction false} EncodingLayout(calls: seq<AccountCall>, i: nat)
    requires Countable(calls) && i < |calls|
    ensures var data, at := Encoding(calls), 1 + CalldataLengths(calls[..i]);
            var call := calls[i];
            && at + 3 + |call.calldata| <= |data|
            && data[0] == |calls|
            && data[at] == call.to && data[at + 1] == call.selector && data[at + 2] == |call.calldata|
            && data[at + 3..at + 3 + |call.calldata|] == call.calldata
  {
    SmallLength(|calls|);
    SmallLength(|calls[i].calldata|);
    BodySplits(calls, i);
    EncodingLength(calls[..i]);
    var front, call := EncodeBody(calls[..i]), EncodeCall(calls[i]);
    var data, at := Encoding(calls), 1 + |front|;
    assert data == [LengthFelt(|calls|)] + front + call + EncodeBody(calls[i + 1..]);
    assert data[at..at + |call|] == call;
    assert data[at + 3..at + |call|] == call[3..];
    assert data[at] == call[0] && data[at + 1] == call[1] && data[at + 2] == call[2];
  }

  lemma {:induction false} BodySplits(calls: seq<AccountCall>, i: nat)
    requires i < |calls|
    ensures EncodeBody(calls) == EncodeBody(calls[..i]) + EncodeCall(calls[i]) + EncodeBody(calls[i + 1..])
  {
    if i == 0 {
      assert calls[..0] == [];
    } else {
      BodySplits(calls[1..], i - 1);
      assert calls[1..][..i - 1] == calls[..i][1..] && calls[1..][i..] == calls[i + 1..];
    }
  }
}
