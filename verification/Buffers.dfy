/** struct IOSocketBuffer: what the read buffer and the write buffer share. */
module Buffers {

  ghost predicate Fits(buffer: array?<int>, bufpos: nat, buflen: nat) {
    bufpos <= buflen && (if buffer == null then buflen == 0 else buffer.Length == buflen + 2)
  }

  ghost function Held(buffer: array?<int>, bufpos: nat): seq<int>
    requires buffer != null ==> bufpos <= buffer.Length
    reads buffer
  {
    if buffer == null then [] else buffer[..bufpos]
  }

  /** iosocket_increase_buffer, with an allocation that succeeds. */
  method Increase(buffer: array?<int>, bufpos: nat, buflen: nat, required: nat)
    returns (grown: array?<int>, length: nat)
    requires Fits(buffer, bufpos, buflen)
    ensures Fits(grown, bufpos, length) && Held(grown, bufpos) == Held(buffer, bufpos)
    ensures length == if buflen >= required then buflen else required
    ensures grown == buffer || fresh(grown)
  {
    if buflen >= required {
      return buffer, buflen;
    }
    grown, length := new int[required + 2](_ => 0), required;
    if buffer != null {
      for i := 0 to bufpos
        invariant grown != null && grown[..i] == buffer[..i]
      {
        grown[i] := buffer[i];
      }
    }
  }
}
