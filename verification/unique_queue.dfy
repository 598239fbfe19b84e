/** The relay handle: a deduplicating FIFO from an input channel to an
    output channel. Its fields are updated in place by Init, PushUnique,
    PopTo, the dispatch loop and Close; each method is specified by the
    functions of module RelaySpec. */
module Queue {
  import opened DedupIndex
  import opened RelaySpec

  class UniqueQueue<Item> {
    /** The caller's key function; absent when none was supplied. */
    const matcherID: Option<Item -> string>
    /** Whether an input channel is attached. What it yields is the input
        of each loop iteration. */
    var hasIn: bool
    /** The output channel, if one is attached. */
    var outQ: Option<Chan<Item>>
    var bufferSize: int
    /** The keys of the items waiting in the internal buffer. */
    var uniqueIDs: set<string>
    /** The internal buffer, oldest first, with its capacity. */
    var feeder: seq<Item>
    var feederCap: nat
    /** Whether the internal buffer channel has been closed. */
    var feederClosed: bool
    /** Cleared by Close; the dispatch loop runs while it is set. */
    var feederOk: bool
    /** Whether the dispatch loop has been started and not yet stopped. */
    var running: bool

    /** The dedup index and internal buffer as a value. */
    function Buf(): Buffer<Item>
      reads this
    {
      Buffer(uniqueIDs, feeder, feederCap, feederClosed, feederOk)
    }

    ghost predicate Valid()
      reads this
    {
      (match matcherID
       case Some(key) => Consistent(key, Buf())
       case None => uniqueIDs == {} && feeder == [] ) &&
      (outQ.Some? ==> |outQ.value.items| <= outQ.value.capacity) &&
      (feederClosed ==> !feederOk) &&
      (running ==> feederOk && Preflight(hasIn, outQ) == Pass)
    }

    /** A handle as written by the caller, before Init: every private
        field holds its zero value. */
    constructor (matcherID: Option<Item -> string>, hasIn: bool, outQ: Option<Chan<Item>>, bufferSize: int)
      requires outQ.Some? ==> |outQ.value.items| <= outQ.value.capacity
      ensures Valid()
      ensures this.matcherID == matcherID && this.hasIn == hasIn && this.outQ == outQ && this.bufferSize == bufferSize
      ensures uniqueIDs == {} && feeder == [] && feederCap == 0
      ensures !feederClosed && !feederOk && !running
    {
      this.matcherID := matcherID;
      this.hasIn := hasIn;
      this.outQ := outQ;
      this.bufferSize := bufferSize;
      uniqueIDs := {};
      feeder := [];
      feederCap := 0;
      feederClosed := false;
      feederOk := false;
      running := false;
    }

    /** Applies the default buffer size and allocates an empty dedup index
        and internal buffer; the channels are left as they are. */
    method Init()
      requires Valid() && !running
      requires bufferSize >= 0
      modifies this`bufferSize, this`uniqueIDs, this`feeder, this`feederCap, this`feederClosed, this`feederOk
      ensures Valid()
      ensures bufferSize == if old(bufferSize) == 0 then DefaultBufferSize else old(bufferSize)
      ensures bufferSize > 0 && feederCap == bufferSize
      ensures uniqueIDs == {} && feeder == [] && !feederClosed && feederOk
    {
      if bufferSize == 0 {
        bufferSize := DefaultBufferSize;
      }
      feederOk := true;
      uniqueIDs := {};
      feeder := [];
      feederCap := bufferSize;
      feederClosed := false;
    }

    /** Validates the channels and starts the dispatch loop. */
    method Run() returns (r: Outcome)
      requires Valid() && feederOk && !running
      modifies this`running
      ensures Valid()
      ensures r == Preflight(hasIn, outQ)
      ensures running <==> r == Pass
    {
      r := Preflight(hasIn, outQ);
      if r == Pass {
        running := true;
      }
    }

    /** Asks the dispatch loop to stop and waits until it has: the loop's
        exit closes the internal buffer. Buffered items are abandoned. */
    method Close()
      requires Valid()
      modifies this`feederOk, this`feederClosed, this`running
      ensures Valid()
      ensures !feederOk && !running
      ensures feederClosed == (old(feederClosed) || old(running))
      ensures feeder == old(feeder) && uniqueIDs == old(uniqueIDs)
    {
      feederOk := false;
      if running {
        running := false;
        feederClosed := true;
      }
    }

    /** Admits `item` unless its key is already pending; fails when no key
        function was supplied, or when a new key is sent to the buffer
        after it has been closed. */
    method PushUnique(item: Item) returns (r: Result<bool>)
      requires Valid()
      requires matcherID.Some? ==> CanPush(matcherID.value, Buf(), item)
      modifies this`uniqueIDs, this`feeder
      ensures Valid()
      ensures matcherID.None? ==> r == Failure(MissingMatcher) && Buf() == old(Buf())
      ensures matcherID.Some? ==> (Buf(), r) == Push(matcherID.value, old(Buf()), item)
    {
      var id := GetID(matcherID, item);
      if id.Failure? {
        return Failure(id.fault);
      }
      if id.value in uniqueIDs {
        return Success(false);
      }
      if feederClosed {
        return Failure(SendOnClosed);
      }
      PushAdmitsNewKey(matcherID.value, Buf(), item);
      feeder := feeder + [item];
      uniqueIDs := uniqueIDs + {id.value};
      r := Success(true);
    }

    /** Takes the head of the internal buffer, if there is one, hands it
        back to be delivered, and releases its key. */
    method PopTo() returns (sent: Option<Item>)
      requires Valid()
      modifies this`uniqueIDs, this`feeder, this`feederOk
      ensures Valid()
      ensures old(feeder) != [] ==> matcherID.Some? && (Buf(), sent) == Pop(matcherID.value, old(Buf()))
      ensures old(feeder) == [] ==> sent == None && feeder == [] && uniqueIDs == old(uniqueIDs) &&
                                    feederOk == (old(feederOk) && !feederClosed)
    {
      if feeder == [] {
        if feederClosed {
          feederOk := false;
        }
        return None;
      }
      var item := feeder[0];
      feeder := feeder[1..];
      var id := GetID(matcherID, item);
      PopDeliversHead(matcherID.value, old(Buf()));
      uniqueIDs := uniqueIDs - {id.value};
      sent := Some(item);
    }

    /** One iteration of the dispatch loop: push what was received, if
        anything, then pop into the output channel if it has room. */
    method Step(input: Option<Item>)
      requires Valid() && running && matcherID.Some?
      requires CanIterate(matcherID.value, Buf(), input)
      modifies this`uniqueIDs, this`feeder, this`feederOk, this`outQ
      ensures Valid() && outQ.Some?
      ensures (Buf(), outQ.value) == Iterate(matcherID.value, old(Buf()), old(outQ.value), input)
    {
      if input.Some? {
        var _ := PushUnique(input.value);
      }
      var out := outQ.value;
      if |out.items| < out.capacity {
        var sent := PopTo();
        if sent.Some? {
          outQ := Some(out.(items := out.items + [sent.value]));
        }
      }
    }

    /** The dispatch loop over a script of receives: it runs while
        `feederOk` is set; a closed input channel only yields nothing. */
    method Fifo(script: seq<Option<Item>>)
      requires Valid() && running && matcherID.Some?
      requires Runnable(matcherID.value, Buf(), outQ.value, script)
      modifies this`uniqueIDs, this`feeder, this`feederOk, this`outQ
      ensures Valid() && outQ.Some?
      ensures (Buf(), outQ.value) == Loop(matcherID.value, old(Buf()), old(outQ.value), script)
    {
      var i := 0;
      while i < |script| && feederOk
        invariant 0 <= i <= |script|
        invariant Valid() && outQ.Some?
        invariant Runnable(matcherID.value, Buf(), outQ.value, script[i..])
        invariant Loop(matcherID.value, old(Buf()), old(outQ.value), script) ==
                  Loop(matcherID.value, Buf(), outQ.value, script[i..])
        decreases |script| - i
      {
        assert script[i..][0] == script[i] && script[i..][1..] == script[i + 1..];
        Step(script[i]);
        i := i + 1;
      }
    }

    /** The consumer's receive from the output channel. */
    method Consume() returns (x: Item)
      requires Valid() && outQ.Some? && outQ.value.items != []
      modifies this`outQ
      ensures Valid() && outQ.Some?
      ensures x == old(outQ.value.items[0])
      ensures outQ.value == old(outQ.value).(items := old(outQ.value.items[1..]))
    {
      x := outQ.value.items[0];
      outQ := Some(outQ.value.(items := outQ.value.items[1..]));
    }
  }
}
