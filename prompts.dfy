/**
 * A prompt that asks again until the answer is acceptable.  The game asks
 * this way for the value of an Ace (1 or 11) and for the bet.  The answers a
 * person types are modelled as the sequence of integers still to be read;
 * reaching its end is the point where `input()` would fail.
 */
module Prompts {
  import opened Wrappers

  /**
   * The answer a re-asking prompt settles on: the first answer that `accept`
   * admits, paired with the answers not yet read; None when no answer left is
   * acceptable.
   */
  function FirstAccepted(answers: seq<int>, accept: int -> bool): (r: Option<(int, seq<int>)>)
    ensures r.None? <==> forall j :: 0 <= j < |answers| ==> !accept(answers[j])
    ensures r.Some? ==>
              var used := |answers| - |r.value.1|;
              1 <= used <= |answers| &&
              answers[used - 1] == r.value.0 && accept(r.value.0) &&
              r.value.1 == answers[used..] &&
              forall j :: 0 <= j < used - 1 ==> !accept(answers[j])
  {
    if |answers| == 0 then None
    else if accept(answers[0]) then Some((answers[0], answers[1..]))
    else FirstAccepted(answers[1..], accept)
  }

  /** Reads one answer, then reads again while the last answer is not accepted. */
  method Ask(answers: seq<int>, accept: int -> bool) returns (r: Option<(int, seq<int>)>)
    ensures r == FirstAccepted(answers, accept)
  {
    if |answers| == 0 {
      return None;
    }
    var answer, rest := answers[0], answers[1..];
    while !accept(answer)
      invariant FirstAccepted([answer] + rest, accept) == FirstAccepted(answers, accept)
      decreases |rest|
    {
      assert ([answer] + rest)[1..] == rest;
      if |rest| == 0 {
        return None;
      }
      assert [rest[0]] + rest[1..] == rest;
      answer, rest := rest[0], rest[1..];
    }
    assert ([answer] + rest)[1..] == rest;
    r := Some((answer, rest));
  }
}
