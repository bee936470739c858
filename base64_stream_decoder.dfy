/**
 * `goog.net.streams.Base64StreamDecoder`: decodes a base64 stream delivered in
 * pieces, passing only whole 4-character groups to the group decoder and
 * keeping the remainder for the next call. Once a call fails the decoder
 * stays broken.
 *
 * The group decoder (`goog.crypt.base64.decodeStringToByteArray`) is not part
 * of this model: every operation takes it as a parameter, a partial function
 * from a string of whole groups to bytes or an error message.
 */
module Base64StreamDecoder {

  newtype byte = x: int | 0 <= x < 256

  datatype GroupResult = Bytes(bytes: seq<byte>) | Invalid(message: string)

  type GroupDecoder = string -> GroupResult

  /** What one `decode` call yields: `null`, decoded bytes, or a thrown error. */
  datatype DecodeOutcome =
    | NeedMoreInput
    | Decoded(bytes: seq<byte>)
    | StreamBroken(position: nat, message: string, input: string)

  const AlreadyBrokenMessage: string := "stream already broken"

  /** The decoder's three fields. */
  datatype DecoderState = DecoderState(isInputValid: bool, streamPos: nat, leftoverInput: string)

  const Initial: DecoderState := DecoderState(true, 0, "")

  /** One `decode(input)` call on state `s`: the new state and the outcome. */
  function Step(s: DecoderState, input: string, decodeGroups: GroupDecoder): (DecoderState, DecodeOutcome) {
    if !s.isInputValid then
      (s, StreamBroken(s.streamPos, AlreadyBrokenMessage, input))
    else
      var buffer := s.leftoverInput + input;
      var groups := |buffer| / 4;
      if groups == 0 then
        (DecoderState(true, s.streamPos, buffer), NeedMoreInput)
      else
        match decodeGroups(buffer[..groups * 4])
        case Invalid(message) =>
          (DecoderState(false, s.streamPos, buffer), StreamBroken(s.streamPos, message, buffer))
        case Bytes(bytes) =>
          (DecoderState(true, s.streamPos + groups * 4, buffer[groups * 4..]), Decoded(bytes))
  }

  /** What every reachable state satisfies. */
  predicate Reachable(s: DecoderState) {
    s.streamPos % 4 == 0 && (s.isInputValid ==> |s.leftoverInput| < 4)
  }

  /**
   * Each call keeps the position a multiple of 4 and, while the stream is
   * valid, fewer than 4 characters buffered.
   */
  lemma StepKeepsReachable(s: DecoderState, input: string, decodeGroups: GroupDecoder)
    requires Reachable(s)
    ensures Reachable(Step(s, input, decodeGroups).0)
  {
  }

  /** A broken decoder stays broken and rejects every input, naming its position. */
  lemma BrokenStaysBroken(s: DecoderState, input: string, decodeGroups: GroupDecoder)
    requires !s.isInputValid
    ensures Step(s, input, decodeGroups) == (s, StreamBroken(s.streamPos, AlreadyBrokenMessage, input))
  {
  }

  /** Fewer than 4 buffered characters: no bytes yet, and the input is only appended. */
  lemma ShortInputIsBuffered(s: DecoderState, input: string, decodeGroups: GroupDecoder)
    requires s.isInputValid && |s.leftoverInput + input| < 4
    ensures Step(s, input, decodeGroups) == (DecoderState(true, s.streamPos, s.leftoverInput + input), NeedMoreInput)
  {
  }

  /**
   * With at least one whole group buffered, exactly the first `groups * 4`
   * characters reach the group decoder; on success the position advances by
   * that much and the trailing `length % 4` characters stay buffered, on
   * failure the decoder breaks at the old position with everything buffered.
   */
  lemma WholeGroupsAreDecoded(s: DecoderState, input: string, decodeGroups: GroupDecoder)
    requires s.isInputValid && |s.leftoverInput + input| >= 4
    ensures var buffer := s.leftoverInput + input;
            var groups := |buffer| / 4;
            var (s', outcome) := Step(s, input, decodeGroups);
            && groups > 0
            && (decodeGroups(buffer[..groups * 4]).Bytes? ==>
                  && s'.isInputValid
                  && s'.streamPos == s.streamPos + groups * 4
                  && s'.leftoverInput == buffer[groups * 4..]
                  && |s'.leftoverInput| == |buffer| % 4
                  && outcome == Decoded(decodeGroups(buffer[..groups * 4]).bytes))
            && (decodeGroups(buffer[..groups * 4]).Invalid? ==>
                  && !s'.isInputValid
                  && s'.streamPos == s.streamPos
                  && s'.leftoverInput == buffer
                  && outcome == StreamBroken(s.streamPos, decodeGroups(buffer[..groups * 4]).message, buffer))
  {
  }

  function Concat(inputs: seq<string>): string {
    if inputs == [] then "" else inputs[0] + Concat(inputs[1..])
  }

  /** A sequence of `decode` calls: the final state and each call's outcome. */
  function Run(s: DecoderState, inputs: seq<string>, decodeGroups: GroupDecoder): (DecoderState, seq<DecodeOutcome>)
    decreases |inputs|
  {
    if inputs == [] then (s, [])
    else
      var (s1, outcome) := Step(s, inputs[0], decodeGroups);
      var (final, outcomes) := Run(s1, inputs[1..], decodeGroups);
      (final, [outcome] + outcomes)
  }

  /** Once broken, every later call throws and nothing changes. */
  lemma {:induction false} BrokenRunStaysBroken(s: DecoderState, inputs: seq<string>, decodeGroups: GroupDecoder)
    requires !s.isInputValid
    ensures Run(s, inputs, decodeGroups).0 == s
    ensures |Run(s, inputs, decodeGroups).1| == |inputs|
    ensures forall k :: 0 <= k < |inputs| ==>
              Run(s, inputs, decodeGroups).1[k] == StreamBroken(s.streamPos, AlreadyBrokenMessage, inputs[k])
    decreases |inputs|
  {
    if inputs != [] {
      BrokenRunStaysBroken(s, inputs[1..], decodeGroups);
      var os := Run(s, inputs, decodeGroups).1;
      forall k | 0 <= k < |inputs|
        ensures os[k] == StreamBroken(s.streamPos, AlreadyBrokenMessage, inputs[k])
      {
        if k > 0 {
          assert os[k] == Run(s, inputs[1..], decodeGroups).1[k - 1];
        }
      }
    }
  }

  /**
   * While the stream stays valid, no character is lost or decoded twice: the
   * buffered characters are exactly the stream after the position reached.
   */
  lemma {:induction false} RunAccountsForStream(s: DecoderState, inputs: seq<string>, decodeGroups: GroupDecoder)
    requires s.isInputValid
    ensures var final := Run(s, inputs, decodeGroups).0;
            var stream := s.leftoverInput + Concat(inputs);
            final.isInputValid ==>
              && s.streamPos <= final.streamPos
              && final.streamPos - s.streamPos + |final.leftoverInput| == |stream|
              && final.leftoverInput == stream[final.streamPos - s.streamPos..]
    decreases |inputs|
  {
    if inputs != [] {
      var (s1, _) := Step(s, inputs[0], decodeGroups);
      var final := Run(s, inputs, decodeGroups).0;
      assert final == Run(s1, inputs[1..], decodeGroups).0;
      var stream := s.leftoverInput + Concat(inputs);
      var buffer := s.leftoverInput + inputs[0];
      assert stream == buffer + Concat(inputs[1..]);
      if !s1.isInputValid {
        BrokenRunStaysBroken(s1, inputs[1..], decodeGroups);
      } else {
        RunAccountsForStream(s1, inputs[1..], decodeGroups);
        var d := s1.streamPos - s.streamPos;
        assert 0 <= d <= |buffer| && s1.leftoverInput == buffer[d..];
        assert s1.leftoverInput + Concat(inputs[1..]) == stream[d..];
      }
    }
  }

  /**
   * From a new decoder: while the stream is valid, the position is the largest
   * multiple of 4 within the characters received, and the rest is buffered.
   */
  lemma RunFromStart(inputs: seq<string>, decodeGroups: GroupDecoder)
    ensures var final := Run(Initial, inputs, decodeGroups).0;
            var stream := Concat(inputs);
            final.isInputValid ==>
              && final.streamPos == |stream| - |stream| % 4
              && final.leftoverInput == stream[final.streamPos..]
  {
    RunKeepsReachable(Initial, inputs, decodeGroups);
    RunAccountsForStream(Initial, inputs, decodeGroups);
    assert Initial.leftoverInput + Concat(inputs) == Concat(inputs);
  }

  lemma {:induction false} RunKeepsReachable(s: DecoderState, inputs: seq<string>, decodeGroups: GroupDecoder)
    requires Reachable(s)
    ensures Reachable(Run(s, inputs, decodeGroups).0)
    decreases |inputs|
  {
    if inputs != [] {
      StepKeepsReachable(s, inputs[0], decodeGroups);
      RunKeepsReachable(Step(s, inputs[0], decodeGroups).0, inputs[1..], decodeGroups);
    }
  }

  class Decoder {
    var inputValid: bool
    var streamPos: nat
    var leftoverInput: string

    /** A new decoder: valid, at position 0, nothing buffered. */
    constructor ()
      ensures Snapshot() == Initial
    {
      inputValid := true;
      streamPos := 0;
      leftoverInput := "";
    }

    function Snapshot(): DecoderState
      reads this
    {
      DecoderState(inputValid, streamPos, leftoverInput)
    }

    /** `isInputValid()`. */
    function IsInputValid(): (valid: bool)
      reads this
      ensures valid == Snapshot().isInputValid
    {
      inputValid
    }

    /** `error_`: marks the stream broken and throws, naming the current position. */
    method Error(input: string, message: string) returns (outcome: DecodeOutcome)
      modifies this
      ensures Snapshot() == old(Snapshot()).(isInputValid := false)
      ensures outcome == StreamBroken(old(streamPos), message, input)
    {
      inputValid := false;
      outcome := StreamBroken(streamPos, message, input);
    }

    /** `decode(input)`, one call of `Step`. */
    method Decode(input: string, decodeGroups: GroupDecoder) returns (outcome: DecodeOutcome)
      modifies this
      ensures (Snapshot(), outcome) == Step(old(Snapshot()), input, decodeGroups)
    {
      if !inputValid {
        outcome := Error(input, AlreadyBrokenMessage);
        return;
      }
      leftoverInput := leftoverInput + input;
      var groups := |leftoverInput| / 4;
      if groups == 0 {
        outcome := NeedMoreInput;
        return;
      }
      var result := decodeGroups(leftoverInput[..groups * 4]);
      if result.Invalid? {
        outcome := Error(leftoverInput, result.message);
        return;
      }
      streamPos := streamPos + groups * 4;
      leftoverInput := leftoverInput[groups * 4..];
      outcome := Decoded(result.bytes);
    }
  }
}
