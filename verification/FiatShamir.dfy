/**
 The transcript as the two protocols see it: a challenge is a function of everything written to and drawn from the
 transcript so far. Module TranscriptOracle proves that the bytes of src/transcript.rs realise such an oracle.
 */
module FiatShamir {
  import B = Bytes

  datatype Message<F> =
    | Bytes(bytes: seq<B.Byte>)
    | Zeros(count: nat)
    | Element(element: F)
    | Elements(elements: seq<F>)

  datatype Step<F> = Write(message: Message<F>) | Draw(length: nat) | DrawNaturals(max: nat, count: nat)

  type History<F> = seq<Step<F>>

  /** The random oracle behind the challenges, arbitrary except for the shape of its answers. */
  datatype Oracle<!F> = Oracle(
    challenge: (History<F>, nat) -> seq<F>,
    naturals: (History<F>, nat, nat) -> seq<nat>)

  ghost predicate ChallengeShape<F>(o: Oracle<F>, h: History<F>, n: nat) {
    |o.challenge(h, n)| == n
  }

  /** Distinct values below max, as the sampler without replacement returns. */
  ghost predicate NaturalsShape<F>(o: Oracle<F>, h: History<F>, max: nat, count: nat) {
    var s := o.naturals(h, max, count);
    count < max ==>
      && |s| == count
      && (forall i :: 0 <= i < count ==> s[i] < max)
      && (forall i, j :: 0 <= i < j < count ==> s[i] != s[j])
  }

  ghost predicate ValidOracle<F(!new)>(o: Oracle<F>) {
    && (forall h: History<F>, n: nat :: ChallengeShape(o, h, n))
    && (forall h: History<F>, max: nat, count: nat :: NaturalsShape(o, h, max, count))
  }

  class Transcript<F(!new)> {
    const oracle: Oracle<F>
    var history: History<F>

    constructor (oracle: Oracle<F>, history: History<F>)
      ensures this.oracle == oracle && this.history == history
    {
      this.oracle, this.history := oracle, history;
    }

    method Append(message: Message<F>)
      modifies this
      ensures history == old(history) + [Write(message)]
    {
      history := history + [Write(message)];
    }

    method GenerateChallenge(length: nat) returns (challenge: seq<F>)
      requires ValidOracle(oracle)
      modifies this
      ensures challenge == oracle.challenge(old(history), length) && |challenge| == length
      ensures history == old(history) + [Draw(length)]
    {
      challenge := oracle.challenge(history, length);
      assert ChallengeShape(oracle, history, length);
      history := history + [Draw(length)];
    }

    method GenerateNaturalsWithoutReplacement(max: nat, count: nat) returns (s: seq<nat>)
      requires ValidOracle(oracle) && count < max
      modifies this
      ensures s == oracle.naturals(old(history), max, count) && |s| == count
      ensures forall i :: 0 <= i < count ==> s[i] < max
      ensures forall i, j :: 0 <= i < j < count ==> s[i] != s[j]
      ensures history == old(history) + [DrawNaturals(max, count)]
    {
      s := oracle.naturals(history, max, count);
      assert NaturalsShape(oracle, history, max, count);
      history := history + [DrawNaturals(max, count)];
    }
  }
}
