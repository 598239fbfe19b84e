/** Client code driving a UniqueQueue the way the repository's test suite
    does; every assertion follows from the method contracts alone. */
module QueueScenarios {
  import opened RelaySpec
  import opened Queue

  /** The test suite's item: an identity and a payload. */
  datatype Fake = Fake(id: string, value: string)

  function FakeID(f: Fake): string
  {
    f.id
  }

  /** Init leaves an empty queue; an item pushed once is admitted, a
      second push of the same key is dropped, popping delivers the pushed
      item and empties the queue, after which the key is admitted again. */
  method PushPopScenario()
  {
    var q := new UniqueQueue<Fake>(Some(FakeID), false, None, 0);
    q.Init();
    assert q.bufferSize == 100 && q.uniqueIDs == {} && q.feeder == [];

    var faked := Fake("1234", "5678");
    var r := q.PushUnique(faked);
    assert r == Success(true);
    assert q.feeder == [faked] && q.uniqueIDs == {"1234"};

    var twin := Fake("1234", "other");
    r := q.PushUnique(twin);
    assert r == Success(false);
    assert q.feeder == [faked];

    var sent := q.PopTo();
    assert sent == Some(faked);
    assert q.feeder == [] && q.uniqueIDs == {};

    r := q.PushUnique(twin);
    assert r == Success(true);
  }

  /** Pushing without a key function fails and changes nothing. */
  method MissingMatcherScenario()
  {
    var q := new UniqueQueue<Fake>(None, false, None, 0);
    q.Init();
    var r := q.PushUnique(Fake("1234", "5678"));
    assert r == Failure(MissingMatcher);
    assert q.feeder == [];
  }

  /** Starting the relay with an unbuffered output channel is refused; a
      relay that was started stops on Close with its buffer closed, after
      which pushing a new key is a send on the closed buffer. */
  method RunAndCloseScenario()
  {
    var q := new UniqueQueue<Fake>(Some(FakeID), true, Some(Chan([], 0)), 0);
    q.Init();
    var outcome := q.Run();
    assert outcome == Fail(ZeroCapacityOut) && !q.running;

    var q2 := new UniqueQueue<Fake>(Some(FakeID), true, Some(Chan([], 1)), 0);
    q2.Init();
    outcome := q2.Run();
    assert outcome == Pass && q2.running;
    q2.Step(Some(Fake("a", "1")));
    assert q2.outQ.value.items == [Fake("a", "1")] && q2.feeder == [];
    q2.Close();
    assert !q2.running && q2.feederClosed && !q2.feederOk;

    var r := q2.PushUnique(Fake("b", "2"));
    assert r == Failure(SendOnClosed) && q2.feeder == [];
  }
}
