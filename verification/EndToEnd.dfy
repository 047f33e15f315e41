/** The two halves of a connection joined: what one end sends, the other handles. */
module EndToEnd {
  import opened Bytes
  import opened ChunkHeaders
  import opened Receiving
  import opened Sending
  import opened RoundTrip
  import opened WriteHalves
  import opened Changeover
  import ReadHalves

  /** Sends some messages and flushes once, unless a short header buffer stops it. */
  method SendMessages(w: WriteHalf, ms: seq<Message>) returns (ok: bool)
    requires w.Valid() && forall m :: m in ms ==> Sendable(m)
    modifies w`pool, w`queue, w`pieces, w`wire, w.Buffers()
    ensures (forall m :: m in ms ==> m.csid < 64) ==> ok
    ensures 0 < w.localChunkSize && forall m :: m in ms ==> ValidCsid(m.csid)
    ensures ok ==>
              && w.Valid() && w.Pending() == []
              && w.wire == old(w.wire) + old(w.Pending()) + SendAll(ms, w.localChunkSize)
  {
    hide SendBytes, SendAll, WriteHalf.Valid, WriteHalf.Pending, Fits;
    PositiveChunk(w);
    ghost var before := w.Pending();
    NothingYet(ms, w.localChunkSize, before);
    assert forall m :: m in ms ==> ValidCsid(m.csid);
    for i := 0 to |ms|
      invariant w.Valid() && fresh(w.Buffers() - old(w.Buffers())) && w.wire == old(w.wire)
      invariant w.Pending() == before + SendAll(ms[..i], w.localChunkSize)
    {
      if ms[i].csid < 64 { SmallFits(w, ms[i].csid); }
      assert PoolArrays(w.pool) <= w.Buffers();
      var pick: nat := *;
      var r := w.SendIntegralMessage(ms[i], pick);
      if r == Panicked {
        return false;
      }
      assert Sendable(ms[i]) && r.Sent?;
      assert ms[..i + 1] == ms[..i] + [ms[i]];
      OneMore(before, ms[..i], ms[i], w.localChunkSize);
    }
    assert ms[..|ms|] == ms;
    var n := w.Flush();
    assert w.wire == old(w.wire) + (before + SendAll(ms, w.localChunkSize));
    ok := true;
  }

  lemma NothingYet(ms: seq<Message>, chunkSize: nat, before: seq<Byte>)
    requires 0 < chunkSize
    ensures ms[..0] == [] && before + SendAll([], chunkSize) == before
  {
  }

  /** A client that connects and then listens handles exactly what the server sends: the
      greeting, read in 128-byte chunks, then the command result and every later message, read
      in chunks of the announced size. Only a csid of 64 or more can stop it short, where a header
      buffer came back too short. */
  method Converse(chunkSize: nat, pool: seq<Slice>, windowSize: nat, result: Message, ms: seq<Message>)
    returns (ok: bool, handled: seq<Message>, size: nat)
    requires Exclusive(pool, []) && forall i :: 0 <= i < |pool| ==> GoodSlice(pool[i])
    requires 128 < chunkSize < U32 && result.typeId != SET_CHUNK_SIZE
    requires CleanMessages([result] + ms, chunkSize)
    requires forall m :: m in ms ==> m.typeId != SET_CHUNK_SIZE
    modifies PoolArrays(pool)
    ensures result.csid < 64 && (forall m :: m in ms ==> m.csid < 64) ==> ok
    ensures ok ==> handled == Greeting(windowSize, chunkSize) + [result] + ms && size == chunkSize
  {
    hide SendBytes, SendAll, Serve, WriteHalf.Valid, WriteHalf.Pending, ReadHalves.ReadHalf.Valid, Greeting;
    ghost var g := Greeting(windowSize, chunkSize);
    handled, size := [], 0;
    assert result in [result] + ms;
    assert forall m :: m in ms ==> m in [result] + ms;
    var w := new WriteHalf(chunkSize, pool);
    if result.csid < 64 { SmallFits(w, result.csid); }
    var r := RespondConnect(w, windowSize, result);
    if r == ServerPanicked {
      ok := false;
      return;
    }
    ghost var first := SendAll(g + [result], chunkSize);
    assert w.wire == [] + [] + first == first;
    ok := SendMessages(w, ms);
    if !ok {
      return;
    }
    SendAllJoin(g + [result], ms, chunkSize);
    assert w.wire == first + [] + SendAll(ms, chunkSize) == first + SendAll(ms, chunkSize);
    assert g + [result] + ms == g + ([result] + ms);
    ChunkSizeChangeover(windowSize, chunkSize, [result] + ms);
    var client := new ReadHalves.ReadHalf(w.wire, 128);
    var error;
    handled, error := client.ServeAll();
    size := client.remoteChunkSize;
  }
}
