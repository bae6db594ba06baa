/** The code one worker runs, as it is written: a shared error record set under a lock, and a loop that
    reads every chunk into one reused buffer. Alone on the channel it does what `ApplyAll` says. */
module CopyWorker {
  import opened Wrappers
  import opened CopyEngine

  class CopyError {
    var description: string
    var fatal: bool
    var full: bool

    constructor ()
      ensures Record() == NoError
    {
      description, fatal, full := "", false, false;
    }

    ghost function Record(): ErrorRecord
      reads this
    {
      if full then Recorded(description, fatal) else NoError
    }

    method Set(errStr: string, isFatal: bool)
      modifies this
      ensures Record() == SetFirst(old(Record()), errStr, isFatal)
    {
      if !full {
        description := errStr;
        fatal := isFatal;
        full := true;
      }
    }

    method IsSet() returns (isSet: bool)
      ensures isSet <==> Record().Recorded?
    {
      isSet := full;
    }
  }

  // The calls made to the endpoints, with what was given and what was answered.
  datatype EndpointCall =
    | FetchedAt(offset: nat, hash: string, err: Option<string>)
    | FilledAt(offset: nat, hash: string, data: Bytes, err: Option<string>)
    | SkippedAt(offset: nat, hash: string, err: Option<string>)

  class Journal {
    ghost var calls: seq<EndpointCall>

    constructor ()
      ensures calls == []
    {
      calls := [];
    }
  }

  // A source endpoint: a read either fills the caller's buffer or fails, leaving anything in it.
  class Source {
    const objSize: nat
    const data: (nat, string) -> Bytes
    const journal: Journal

    ghost predicate Valid() {
      forall off, hash :: |data(off, hash)| == objSize
    }

    constructor (objSize: nat, data: (nat, string) -> Bytes, journal: Journal)
      ensures this.objSize == objSize && this.data == data && this.journal == journal
    {
      this.objSize, this.data, this.journal := objSize, data, journal;
    }

    method FetchAt(offset: nat, hash: string, buf: array<Byte>) returns (err: Option<string>)
      requires Valid() && buf.Length == objSize
      modifies buf, journal
      ensures err.None? ==> buf[..] == data(offset, hash)
      ensures journal.calls == old(journal.calls) + [FetchedAt(offset, hash, err)]
    {
      var i := 0;
      while i < buf.Length
        invariant i <= buf.Length
        invariant buf[..i] == data(offset, hash)[..i]
        invariant journal.calls == old(journal.calls)
      {
        if * {
          var message: string := *;
          err := Some(message);
          journal.calls := journal.calls + [FetchedAt(offset, hash, err)];
          return;
        }
        buf[i] := data(offset, hash)[i];
        i := i + 1;
      }
      err := None;
      journal.calls := journal.calls + [FetchedAt(offset, hash, err)];
    }
  }

  // A destination endpoint: a write that fails may have changed that offset, and no other.
  class Destination {
    var data: map<nat, Bytes>
    const journal: Journal

    constructor (journal: Journal)
      ensures data == map[] && this.journal == journal
    {
      this.journal, data := journal, map[];
    }

    method FillAt(offset: nat, hash: string, buf: array<Byte>) returns (err: Option<string>)
      modifies this, journal
      ensures err.None? ==> data == old(data)[offset := buf[..]]
      ensures err.Some? ==> data - {offset} == old(data) - {offset}
      ensures journal.calls == old(journal.calls) + [FilledAt(offset, hash, buf[..], err)]
    {
      if * {
        var written: nat :| written <= buf.Length;
        var message: string := *;
        data := data[offset := buf[..written]];
        err := Some(message);
      } else {
        data := data[offset := buf[..]];
        err := None;
      }
      journal.calls := journal.calls + [FilledAt(offset, hash, buf[..], err)];
    }

    method SkipAt(offset: nat, hash: string) returns (err: Option<string>)
      modifies journal
      ensures journal.calls == old(journal.calls) + [SkippedAt(offset, hash, err)]
    {
      if * {
        var message: string := *;
        err := Some(message);
      } else {
        err := None;
      }
      journal.calls := journal.calls + [SkippedAt(offset, hash, err)];
    }
  }

  // ---------- the calls a chunk asks for ----------

  // A dirty chunk is read and written, a clean one skipped, and all went well.
  ghost function CallsFor(source: (nat, string) -> Bytes, c: ChunkInfo): seq<EndpointCall> {
    if c.dirty
    then [FetchedAt(c.offset, c.hash, None), FilledAt(c.offset, c.hash, source(c.offset, c.hash), None)]
    else [SkippedAt(c.offset, c.hash, None)]
  }

  ghost function CallsForAll(source: (nat, string) -> Bytes, cs: seq<ChunkInfo>): seq<EndpointCall> {
    if cs == [] then [] else CallsForAll(source, cs[..|cs| - 1]) + CallsFor(source, cs[|cs| - 1])
  }

  // The calls for a chunk up to one that failed, and what is recorded of that.
  ghost predicate Fails(source: (nat, string) -> Bytes, c: ChunkInfo, calls: seq<EndpointCall>, message: string) {
    || (exists e ::
          c.dirty && calls == [FetchedAt(c.offset, c.hash, Some(e))] && message == "FetchAt: " + e)
    || (exists e ::
          && c.dirty && message == "FillAt: " + e
          && calls == [FetchedAt(c.offset, c.hash, None),
                       FilledAt(c.offset, c.hash, source(c.offset, c.hash), Some(e))])
    || (exists e ::
          !c.dirty && calls == [SkippedAt(c.offset, c.hash, Some(e))] && message == "SkipAt: " + e)
  }

  ghost predicate SomeFailed(calls: seq<EndpointCall>) {
    exists i :: 0 <= i < |calls| && calls[i].err.Some?
  }

  lemma {:induction false} CallsForAllWork(source: (nat, string) -> Bytes, cs: seq<ChunkInfo>)
    ensures !SomeFailed(CallsForAll(source, cs))
  {
    if cs != [] {
      CallsForAllWork(source, cs[..|cs| - 1]);
    }
  }

  lemma OneMoreHandled(source: (nat, string) -> Bytes, work: seq<ChunkInfo>, n: nat)
    requires n < |work|
    ensures CallsForAll(source, work[..n + 1]) == CallsForAll(source, work[..n]) + CallsFor(source, work[n])
    ensures forall dst :: ApplyAll(source, dst, work[..n + 1]) ==
                          ApplyChunk(source, ApplyAll(source, dst, work[..n]), work[n])
  {
    assert work[..n + 1][..n] == work[..n];
  }

  lemma FailureIsCalled(source: (nat, string) -> Bytes, cs: seq<ChunkInfo>, c: ChunkInfo, calls: seq<EndpointCall>,
                        message: string)
    requires Fails(source, c, calls, message)
    ensures SomeFailed(CallsForAll(source, cs) + calls)
  {
    var all := CallsForAll(source, cs) + calls;
    assert all[|all| - 1] == calls[|calls| - 1];
  }

  // One chunk.
  method Handle(ci: ChunkInfo, buf: array<Byte>, globError: CopyError, src: Source, dst: Destination)
    returns (ok: bool, ghost calls: seq<EndpointCall>, ghost message: string)
    requires src.Valid() && buf.Length == src.objSize && dst.journal == src.journal
    modifies globError, dst, dst.journal, buf
    ensures dst.journal.calls == old(dst.journal.calls) + calls
    ensures ok ==>
              && calls == CallsFor(src.data, ci) && dst.data == ApplyChunk(src.data, old(dst.data), ci)
              && globError.Record() == old(globError.Record())
    ensures !ok ==>
              && Fails(src.data, ci, calls, message)
              && globError.Record() == SetFirst(old(globError.Record()), message, true)
              && dst.data - {ci.offset} == old(dst.data) - {ci.offset}
              && (!ci.dirty ==> dst.data == old(dst.data))
  {
    message := "";
    if ci.dirty {
      var e := src.FetchAt(ci.offset, ci.hash, buf);
      calls := [FetchedAt(ci.offset, ci.hash, e)];
      if e.Some? {
        globError.Set("FetchAt: " + e.value, true);
        message := "FetchAt: " + e.value;
        return false, calls, message;
      }
      e := dst.FillAt(ci.offset, ci.hash, buf);
      calls := calls + [FilledAt(ci.offset, ci.hash, buf[..], e)];
      if e.Some? {
        globError.Set("FillAt: " + e.value, true);
        message := "FillAt: " + e.value;
        return false, calls, message;
      }
    } else {
      var e := dst.SkipAt(ci.offset, ci.hash);
      calls := [SkippedAt(ci.offset, ci.hash, e)];
      if e.Some? {
        globError.Set("SkipAt: " + e.value, true);
        message := "SkipAt: " + e.value;
        return false, calls, message;
      }
    }
    ok := true;
  }

  // The worker's loop over the chunks it receives. `handled` counts the chunks dealt with; the count is shorter
  // than what was sent exactly when an endpoint call failed, and the next chunk is then the one it failed for.
  method Work(work: seq<ChunkInfo>, globError: CopyError, src: Source, dst: Destination)
    returns (handled: nat, finalState: nat, ghost calls: seq<EndpointCall>, ghost message: string)
    requires src.Valid() && dst.journal == src.journal
    modifies globError, dst, dst.journal
    ensures handled <= |work|
    // the calls made, and how they were answered
    ensures dst.journal.calls == old(dst.journal.calls) + CallsForAll(src.data, work[..handled]) + calls
    ensures handled < |work| <==> SomeFailed(dst.journal.calls[|old(dst.journal.calls)|..])
    ensures if handled == |work| then calls == [] else Fails(src.data, work[handled], calls, message)
    // the record and the destination
    ensures globError.Record() == if handled == |work| then old(globError.Record())
            else SetFirst(old(globError.Record()), message, true)
    ensures handled == |work| ==> dst.data == ApplyAll(src.data, old(dst.data), work)
    ensures handled < |work| ==>
              && dst.data - {work[handled].offset} ==
                 ApplyAll(src.data, old(dst.data), work[..handled]) - {work[handled].offset}
              && (!work[handled].dirty ==> dst.data == ApplyAll(src.data, old(dst.data), work[..handled]))
    ensures finalState == if globError.Record().NoError? then 6 else 7
  {
    var buf := new Byte[src.objSize];
    handled, calls, message := 0, [], "";
    ghost var before := dst.journal.calls;
    assert before == before + [];
    while handled < |work|
      invariant handled <= |work| && calls == []
      invariant dst.data == ApplyAll(src.data, old(dst.data), work[..handled])
      invariant globError.Record() == old(globError.Record())
      invariant dst.journal.calls == before + CallsForAll(src.data, work[..handled])
    {
      OneMoreHandled(src.data, work, handled);
      var ok;
      ok, calls, message := Handle(work[handled], buf, globError, src, dst);
      if !ok {
        break;
      }
      assert before + CallsForAll(src.data, work[..handled + 1])
          == before + CallsForAll(src.data, work[..handled]) + calls;
      calls := [];
      handled := handled + 1;
    }
    assert work[..|work|] == work;
    CallsForAllWork(src.data, work[..handled]);
    assert dst.journal.calls[|before|..] == CallsForAll(src.data, work[..handled]) + calls;
    if handled < |work| {
      FailureIsCalled(src.data, work[..handled], work[handled], calls, message);
    }
    var isSet := globError.IsSet();
    finalState := if isSet then 7 else 6;
  }
}
