/** Batch completion polling of CUDA events into a caller-owned buffer. */
module Poller {
  datatype Error = TooSmall | OtherDevice | Cuda(code: int)

  datatype Result<+T> = Ok(value: T) | Err(error: Error)

  const SUCCESS := 0
  const NOT_READY := 600

  /** An event, the device it was recorded on and the code a query would return. */
  datatype Event = Event(device: int, code: int)

  function QueryRaw(e: Event): Result<bool> {
    if e.code == SUCCESS then Ok(true) else if e.code == NOT_READY then Ok(false) else Err(Cuda(e.code))
  }

  predicate AllOn(device: int, events: seq<Event>) { forall e | e in events :: e.device == device }

  /** The first event whose own query fails. */
  function FirstFailure(events: seq<Event>, i: nat): (k: nat)
    requires i <= |events|
    ensures i <= k <= |events|
    ensures forall j | i <= j < k :: events[j].code in {0, 600}
    ensures k < |events| ==> events[k].code !in {0, 600}
    decreases |events| - i
  {
    if i == |events| || QueryRaw(events[i]).Err? then i else FirstFailure(events, i + 1)
  }

  /** One thread's view of the CUDA runtime; `get` and `select` are the codes its calls return. */
  class Thread {
    var current: int

    constructor (current: int)
      ensures this.current == current
    {
      this.current := current;
    }

    /** The device is current afterwards, unless one of the two calls fails. */
    method EnsureDeviceActive(device: int, get: int, select: int) returns (r: Result<()>)
      modifies this
      ensures r.Ok? <==> get == SUCCESS && (old(current) == device || select == SUCCESS)
      ensures r.Ok? ==> current == device
      ensures r.Err? ==> current == old(current)
      ensures r.Err? ==> r.error == Cuda(if get != SUCCESS then get else select)
    {
      if get != SUCCESS {
        return Err(Cuda(get));
      }
      if current != device {
        if select != SUCCESS {
          return Err(Cuda(select));
        }
        current := device;
      }
      r := Ok(());
    }

    /** One event on its own. */
    method IsComplete(e: Event, get: int, select: int) returns (r: Result<bool>)
      modifies this
      ensures get == SUCCESS && (old(current) == e.device || select == SUCCESS) ==>
        && r == (if e.code == 0 then Ok(true) else if e.code == 600 then Ok(false) else Err(Cuda(e.code)))
        && current == e.device
      ensures get != SUCCESS ==> r == Err(Cuda(get)) && current == old(current)
      ensures get == SUCCESS && old(current) != e.device && select != SUCCESS ==>
        r == Err(Cuda(select)) && current == old(current)
    {
      var active := EnsureDeviceActive(e.device, get, select);
      if active.Err? {
        return Err(active.error);
      }
      r := QueryRaw(e);
    }
  }

  class CompletionPoller {
    const device: int

    constructor (device: int)
      ensures this.device == device
    {
      this.device := device;
    }

    method QueryValidated(e: Event) returns (r: Result<bool>)
      ensures r.Ok? ==> e.device == device && e.code in [SUCCESS, NOT_READY] && (r.value <==> e.code == SUCCESS)
      ensures r == Err(OtherDevice) <==> e.device != device
      ensures AllOn(device, [e]) ==> r == QueryRaw(e)
    {
      if e.device != device {
        return Err(OtherDevice);
      }
      r := QueryRaw(e);
    }

    /** Whatever `Ok` reports is each event's own answer, in order, and nothing beyond the batch is
        written. A refused batch writes nothing; a query that fails at `k` leaves slots from `k` on. */
    method Query(thread: Thread, events: seq<Event>, ready: array<bool>, get: int, select: int) returns (r: Result<()>)
      modifies thread, ready
      ensures ready.Length < |events| ==> r == Err(TooSmall)
      ensures |events| <= ready.Length && !AllOn(device, events) ==> r == Err(OtherDevice)
      ensures ready.Length < |events| || !AllOn(device, events) || |events| == 0 ==>
        ready[..] == old(ready[..]) && thread.current == old(thread.current)
      ensures |events| == 0 ==> r == Ok(())
      ensures var k := FirstFailure(events, 0);
              |events| <= ready.Length && AllOn(device, events) && |events| > 0 ==>
                if get != SUCCESS || (old(thread.current) != device && select != SUCCESS) then
                  && r == Err(Cuda(if get != SUCCESS then get else select))
                  && ready[..] == old(ready[..]) && thread.current == old(thread.current)
                else
                  && thread.current == device
                  && (forall j | 0 <= j < k :: events[j].code == if ready[j] then 0 else 600)
                  && (forall j | k <= j < ready.Length :: ready[j] == old(ready[j]))
                  && (r.Ok? <==> k == |events|)
                  && (k < |events| ==> events[k].code !in {0, 600} && r == Err(Cuda(events[k].code)))
    {
      if ready.Length < |events| {
        return Err(TooSmall);
      }
      if exists e | e in events :: e.device != device {
        return Err(OtherDevice);
      }
      if |events| == 0 {
        return Ok(());
      }
      var active := thread.EnsureDeviceActive(device, get, select);
      if active.Err? {
        return Err(active.error);
      }
      var i := 0;
      while i < |events|
        invariant 0 <= i <= |events| && FirstFailure(events, i) == FirstFailure(events, 0)
        invariant thread.current == device
        invariant forall j | 0 <= j < i :: events[j].code == if ready[j] then 0 else 600
        invariant forall j | i <= j < ready.Length :: ready[j] == old(ready[j])
      {
        var status := QueryValidated(events[i]);
        if status.Err? {
          return Err(status.error);
        }
        ready[i] := status.value;
        i := i + 1;
      }
      r := Ok(());
    }
  }
}
