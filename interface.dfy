/** The byte transport the driver talks through (the `ComInterface` of the
    driver): one blocking read that fills a buffer and one blocking write,
    either of which may fail with an error the driver only passes on. */
module Interface {
  import opened Bytes
  import opened Packet

  /** The transport's own error; the driver never looks inside it. */
  datatype ComError =
    | Nack               // the device delivered fewer bytes than were asked for
    | BusFault(code: nat) // any other failure of the bus, with its own code

  /** What the environment does with one bus transaction. */
  datatype Step = Pass | Fail(error: ComError)

  /** The `k`-th transaction from now; past the end of the schedule all pass. */
  function StepAt(schedule: seq<Step>, k: nat): Step {
    if k < |schedule| then schedule[k] else Pass
  }

  /** The schedule after one transaction. */
  function Advance(schedule: seq<Step>): (rest: seq<Step>)
    ensures forall k: nat :: StepAt(rest, k) == StepAt(schedule, k + 1)
  {
    if schedule == [] then [] else schedule[1..]
  }

  /** What a read of `n` bytes returns, given the fault schedule and the bytes
      the device has to deliver. */
  function ReadResult(schedule: seq<Step>, input: seq<Byte>, n: nat): Outcome<(), ComError> {
    if StepAt(schedule, 0).Fail? then Err(StepAt(schedule, 0).error)
    else if n > |input| then Err(Nack)
    else Ok(())
  }

  /** What a write returns, given the fault schedule. */
  function WriteResult(schedule: seq<Step>): Outcome<(), ComError> {
    if StepAt(schedule, 0).Fail? then Err(StepAt(schedule, 0).error) else Ok(())
  }

  class Transport {
    /** The bytes the device will deliver, in the order it delivers them. */
    var input: seq<Byte>
    /** The fault schedule: how each coming transaction ends. */
    var schedule: seq<Step>
    /** Every frame written so far. */
    ghost var log: seq<seq<Byte>>

    constructor (input: seq<Byte>, schedule: seq<Step>)
      ensures this.input == input && this.schedule == schedule && log == []
    {
      this.input := input;
      this.schedule := schedule;
      log := [];
    }

    /** `read_bytes`: fills `buf[..n]` with the next `n` bytes of the device.
        On failure nothing is promised about `buf[..n]`. */
    method ReadBytes(buf: array<Byte>, n: nat) returns (r: Outcome<(), ComError>)
      requires n <= buf.Length
      modifies this, buf
      ensures r == ReadResult(old(schedule), old(input), n)
      ensures schedule == Advance(old(schedule)) && log == old(log)
      ensures r.Ok? ==> buf[..n] == old(input)[..n] && input == old(input)[n..]
      ensures r.Err? ==> input == old(input)
      ensures buf[n..] == old(buf[n..])
    {
      r := ReadResult(schedule, input, n);
      schedule := Advance(schedule);
      if r.Ok? {
        forall i | 0 <= i < n {
          buf[i] := input[i];
        }
        input := input[n..];
      }
    }

    /** `write_bytes`: sends `packet` to the device. */
    method WriteBytes(packet: seq<Byte>) returns (r: Outcome<(), ComError>)
      modifies this
      ensures r == WriteResult(old(schedule))
      ensures schedule == Advance(old(schedule)) && input == old(input)
      ensures log == if r.Ok? then old(log) + [packet] else old(log)
    {
      r := WriteResult(schedule);
      schedule := Advance(schedule);
      if r.Ok? {
        log := log + [packet];
      }
    }
  }
}
