/** A player's send side: timestamp repair and merge-write accounting
    (pkg/rtmp/server/player.go). */
module Players {
  import opened Bytes
  import opened ChunkHeaders
  import opened Receiving
  import opened Sending
  import opened RoundTrip
  import opened WriteHalves
  import Changeover

  /** The packet types of pkg/av/packet.go; any other value is possible too. */
  const AUDIO: nat := 0x08
  const VIDEO: nat := 0x09
  const METADATA: nat := 0x12

  const FRAME_MS: nat := 40

  /** `data` is the message body: for metadata, what the external codec made of it, unless that
      rejected it (`rejected`). */
  datatype Packet = Packet(kind: nat, timestamp: nat, streamId: nat, data: seq<Byte>, rejected: bool)

  predicate AudioVideo(p: Packet) { p.kind == AUDIO || p.kind == VIDEO }

  // ---------------------------------------------------------------- timestamps

  /** The timestamps of the last audio and video message, and the larger of the two. */
  datatype Clock = Clock(audio: nat, video: nat, base: nat)

  predicate ClockOk(c: Clock) {
    c.audio < U32 && c.video < U32 && c.base == if c.audio > c.video then c.audio else c.video
  }

  /** The timestamp a packet is sent with, in uint32 arithmetic. */
  function Repaired(c: Clock, p: Packet): nat {
    if p.timestamp < c.base then (c.base + FRAME_MS) % U32 else p.timestamp
  }

  function Tick(c: Clock, p: Packet): Clock {
    var audio := if p.kind == AUDIO then Repaired(c, p) else c.audio;
    var video := if p.kind == VIDEO then Repaired(c, p) else c.video;
    Clock(audio, video, if audio > video then audio else video)
  }

  /** The clock after some packets. */
  function Ticks(c: Clock, ps: seq<Packet>): Clock
    decreases |ps|
  {
    if ps == [] then c else Ticks(Tick(c, ps[0]), ps[1..])
  }

  /** The audio and video timestamps that are sent, and those that arrive. */
  function SentTimes(c: Clock, ps: seq<Packet>): seq<nat>
    decreases |ps|
  {
    if ps == [] then []
    else (if AudioVideo(ps[0]) then [Repaired(c, ps[0])] else []) + SentTimes(Tick(c, ps[0]), ps[1..])
  }

  function GivenTimes(ps: seq<Packet>): seq<nat> {
    if ps == [] then [] else (if AudioVideo(ps[0]) then [ps[0].timestamp] else []) + GivenTimes(ps[1..])
  }

  predicate RisesFrom(t: nat, ts: seq<nat>) {
    && (ts != [] ==> t <= ts[0])
    && forall i, j :: 0 <= i < j < |ts| ==> ts[i] <= ts[j]
  }

  /** The guard of the branch that fails: an audio or video packet is late while the base is
      within one frame of wrapping. */
  predicate Wraps(c: Clock, p: Packet) {
    AudioVideo(p) && p.timestamp < c.base && c.base + FRAME_MS >= U32
  }

  predicate NeverWraps(c: Clock, ps: seq<Packet>)
    decreases |ps|
  {
    ps != [] ==> !Wraps(c, ps[0]) && NeverWraps(Tick(c, ps[0]), ps[1..])
  }

  predicate Uint32Times(ps: seq<Packet>) { forall p :: p in ps ==> p.timestamp < U32 }

  lemma TickOk(c: Clock, p: Packet)
    requires ClockOk(c) && p.timestamp < U32
    ensures ClockOk(Tick(c, p))
    ensures AudioVideo(p) && !Wraps(c, p) ==> Tick(c, p).base == Repaired(c, p) >= c.base
    ensures AudioVideo(p) && Wraps(c, p) ==> Repaired(c, p) < c.base
    ensures !AudioVideo(p) ==> Tick(c, p) == c
  {
  }

  lemma RisesStep(t: nat, x: nat, ts: seq<nat>)
    ensures RisesFrom(t, [x] + ts) <==> t <= x && RisesFrom(x, ts)
  {
    if t <= x && RisesFrom(x, ts) {
      assert forall i :: 0 <= i < |ts| ==> x <= ts[i];
    }
    if RisesFrom(t, [x] + ts) {
      var all := [x] + ts;
      assert forall i :: 0 <= i < |ts| ==> all[i + 1] == ts[i];
      assert ts != [] ==> all[0] <= all[1];
      forall i, j | 0 <= i < j < |ts| ensures ts[i] <= ts[j] { assert all[i + 1] <= all[j + 1]; }
    }
  }

  function Last(t: nat, ts: seq<nat>): nat { if ts == [] then t else ts[|ts| - 1] }

  lemma LastStep(t: nat, x: nat, ts: seq<nat>)
    ensures Last(t, [x] + ts) == Last(x, ts)
  {
  }

  /** Audio and video leave in non-decreasing order exactly when no late packet meets a base
      that wraps; and then the base is the last timestamp sent. */
  lemma {:induction false} RisesIffNoWrap(c: Clock, ps: seq<Packet>)
    requires ClockOk(c) && Uint32Times(ps)
    ensures RisesFrom(c.base, SentTimes(c, ps)) <==> NeverWraps(c, ps)
    ensures NeverWraps(c, ps) ==> Ticks(c, ps).base == Last(c.base, SentTimes(c, ps))
    decreases |ps|
  {
    if ps != [] {
      var p := ps[0];
      var c' := Tick(c, p);
      TickOk(c, p);
      RisesIffNoWrap(c', ps[1..]);
      if AudioVideo(p) {
        RisesStep(c.base, Repaired(c, p), SentTimes(c', ps[1..]));
        LastStep(c.base, Repaired(c, p), SentTimes(c', ps[1..]));
      } else {
        assert SentTimes(c, ps) == SentTimes(c', ps[1..]);
      }
    }
  }

  /** It does happen: a packet at the largest timestamp, then a late one. */
  lemma WrapReached()
    ensures var c := Clock(0, 0, 0);
            var ps := [Packet(AUDIO, U32 - 1, 1, [0], false), Packet(AUDIO, 0, 1, [0], false)];
            && ClockOk(c) && Uint32Times(ps)
            && SentTimes(c, ps) == [U32 - 1, FRAME_MS - 1] && !RisesFrom(c.base, SentTimes(c, ps))
  {
    var c := Clock(0, 0, 0);
    var late := Packet(AUDIO, 0, 1, [0], false);
    var ps := [Packet(AUDIO, U32 - 1, 1, [0], false), late];
    assert ps[1..] == [late] && [late][1..] == [];
    assert Tick(c, ps[0]) == Clock(U32 - 1, 0, U32 - 1);
    assert SentTimes(Tick(c, ps[0]), [late]) == [FRAME_MS - 1];
    var sent := SentTimes(c, ps);
    assert sent[0] > sent[1];
  }

  /** How many audio and video packets are rewritten. */
  function Rewrites(c: Clock, ps: seq<Packet>): nat
    decreases |ps|
  {
    if ps == [] then 0
    else (if AudioVideo(ps[0]) && ps[0].timestamp < c.base then 1 else 0) + Rewrites(Tick(c, ps[0]), ps[1..])
  }

  /** Nothing is rewritten exactly when the audio and video packets arrive in order. Without a
      wrapping base a rewritten packet always differs from what arrived. */
  lemma {:induction false} UntouchedIffOrdered(c: Clock, ps: seq<Packet>)
    requires ClockOk(c) && Uint32Times(ps)
    ensures Rewrites(c, ps) == 0 <==> RisesFrom(c.base, GivenTimes(ps))
    ensures Rewrites(c, ps) == 0 ==> SentTimes(c, ps) == GivenTimes(ps)
    ensures NeverWraps(c, ps) ==> (SentTimes(c, ps) == GivenTimes(ps) <==> RisesFrom(c.base, GivenTimes(ps)))
    decreases |ps|
  {
    if ps != [] {
      var p := ps[0];
      var c' := Tick(c, p);
      TickOk(c, p);
      UntouchedIffOrdered(c', ps[1..]);
      var sent, given := SentTimes(c', ps[1..]), GivenTimes(ps[1..]);
      if AudioVideo(p) {
        RisesStep(c.base, p.timestamp, given);
        assert SentTimes(c, ps)[1..] == sent && GivenTimes(ps)[1..] == given;
        assert SentTimes(c, ps)[0] == Repaired(c, p) && GivenTimes(ps)[0] == p.timestamp;
      } else {
        assert SentTimes(c, ps) == sent && GivenTimes(ps) == given;
      }
    }
  }

  function Max(t: nat, ts: seq<nat>): nat
    decreases |ts|
  {
    if ts == [] then t else Max(if ts[0] > t then ts[0] else t, ts[1..])
  }

  lemma {:induction false} MaxIsLargest(t: nat, ts: seq<nat>)
    ensures t <= Max(t, ts) && (forall x :: x in ts ==> x <= Max(t, ts)) && (Max(t, ts) == t || Max(t, ts) in ts)
    decreases |ts|
  {
    if ts != [] {
      MaxIsLargest(if ts[0] > t then ts[0] else t, ts[1..]);
      assert forall x :: x in ts ==> x == ts[0] || x in ts[1..];
    }
  }

  lemma {:induction false} MaxShift(t: nat, d: nat, ts: seq<nat>)
    ensures Max(t + d, ts) <= Max(t, ts) + d
    decreases |ts|
  {
    if ts != [] {
      var a, b := if ts[0] > t + d then ts[0] else t + d, (if ts[0] > t then ts[0] else t) + d;
      MaxMono(a, b, ts[1..]);
      MaxShift(if ts[0] > t then ts[0] else t, d, ts[1..]);
    }
  }

  lemma {:induction false} MaxMono(a: nat, b: nat, ts: seq<nat>)
    requires a <= b
    ensures Max(a, ts) <= Max(b, ts)
    decreases |ts|
  {
    if ts != [] { MaxMono(if ts[0] > a then ts[0] else a, if ts[0] > b then ts[0] else b, ts[1..]); }
  }

  lemma LateDrift(base: nat, base': nat, time: nat, given: seq<nat>)
    requires time < base && base' <= base + FRAME_MS
    ensures Max(base', given) <= Max(base, [time] + given) + FRAME_MS
  {
    MaxShift(base, FRAME_MS, given);
    MaxMono(base', base + FRAME_MS, given);
    assert ([time] + given)[1..] == given;
  }

  /** Repair runs ahead of the input by at most one frame per rewritten packet. */
  lemma {:induction false} DriftBounded(c: Clock, ps: seq<Packet>)
    requires ClockOk(c) && Uint32Times(ps)
    ensures Ticks(c, ps).base <= Max(c.base, GivenTimes(ps)) + 40 * Rewrites(c, ps)
    decreases |ps|
  {
    if ps != [] {
      var p := ps[0];
      var c' := Tick(c, p);
      TickOk(c, p);
      DriftBounded(c', ps[1..]);
      var given := GivenTimes(ps[1..]);
      if AudioVideo(p) {
        assert GivenTimes(ps) == [p.timestamp] + given;
        if p.timestamp < c.base {
          LateDrift(c.base, c'.base, p.timestamp, given);
          assert Rewrites(c, ps) == 1 + Rewrites(c', ps[1..]);
        } else {
          assert ([p.timestamp] + given)[1..] == given;
          assert Max(c.base, [p.timestamp] + given) == Max(p.timestamp, given);
        }
      } else {
        assert GivenTimes(ps) == given;
      }
    }
  }

  /** Anything else, metadata included, is sent at or above the base, or at the wrapped base when
      it is late, and leaves the clock alone. */
  lemma OthersKeepClock(c: Clock, p: Packet)
    requires ClockOk(c) && p.timestamp < U32 && !AudioVideo(p)
    ensures Tick(c, p) == c
    ensures Repaired(c, p) >= c.base <==> !(p.timestamp < c.base && c.base + FRAME_MS >= U32)
  {
  }

  // ---------------------------------------------------------------- messages

  /** The message a packet is sent as: a packet of unknown type gets csid 0, which no chunk
      header can express. */
  function MessageFor(c: Clock, p: Packet): Message {
    Message(if p.kind == AUDIO then 4 else if p.kind == VIDEO || p.kind == METADATA then 6 else 0,
            Repaired(c, p),
            if AudioVideo(p) || p.kind == METADATA then p.kind else 0,
            p.streamId, p.data)
  }

  predicate Goes(p: Packet) { (AudioVideo(p) || (p.kind == METADATA && !p.rejected)) && p.data != [] }

  function MessagesFor(c: Clock, ps: seq<Packet>): (ms: seq<Message>)
    requires GoAll(ps)
    ensures forall m :: m in ms ==> ValidCsid(m.csid)
    decreases |ps|
  {
    if ps == [] then []
    else
      var m := MessageFor(c, ps[0]);
      assert Goes(ps[0]);
      [m] + MessagesFor(Tick(c, ps[0]), ps[1..])
  }

  /** What every packet becomes, in the numbers of the protocol: audio is type 8 on csid 4, video
      type 9 and metadata type 18 on csid 6; any packet behind the base is moved one frame past it. */
  lemma MessageExactly(c: Clock, p: Packet)
    ensures MessageFor(c, p)
            == Message(if p.kind == 8 then 4 else if p.kind == 9 || p.kind == 18 then 6 else 0,
                       if p.timestamp < c.base then (c.base + 40) % 0x1_0000_0000 else p.timestamp,
                       if p.kind == 8 || p.kind == 9 || p.kind == 18 then p.kind else 0,
                       p.streamId, p.data)
    ensures Goes(p) <==> (p.kind == 8 || p.kind == 9 || (p.kind == 18 && !p.rejected)) && p.data != []
  {
  }

  /** The timestamps of the audio and video messages. */
  function TimesOf(ms: seq<Message>): seq<nat> {
    if ms == [] then []
    else (if ms[0].typeId == 8 || ms[0].typeId == 9 then [ms[0].timestamp] else []) + TimesOf(ms[1..])
  }

  /** The repaired times are those of the messages sent, so these rise exactly when no late packet
      meets a wrapping base. */
  lemma {:induction false} MessagesRise(c: Clock, ps: seq<Packet>)
    requires ClockOk(c) && Uint32Times(ps) && GoAll(ps)
    ensures TimesOf(MessagesFor(c, ps)) == SentTimes(c, ps)
    ensures RisesFrom(c.base, TimesOf(MessagesFor(c, ps))) <==> NeverWraps(c, ps)
    decreases |ps|
  {
    RisesIffNoWrap(c, ps);
    if ps != [] {
      TickOk(c, ps[0]);
      MessagesRise(Tick(c, ps[0]), ps[1..]);
      MessageExactly(c, ps[0]);
      var rest := MessagesFor(Tick(c, ps[0]), ps[1..]);
      assert MessagesFor(c, ps) == [MessageFor(c, ps[0])] + rest;
      assert ([MessageFor(c, ps[0])] + rest)[1..] == rest;
    }
  }

  /** The last of some looks at which the merge time had passed, or -1. */
  function LastDue(elapsed: seq<bool>): (n: int)
    ensures -1 <= n < |elapsed|
  {
    if elapsed == [] then -1
    else if elapsed[|elapsed| - 1] then |elapsed| - 1 else LastDue(elapsed[..|elapsed| - 1])
  }

  datatype Outcome = Fine | ReformFailed | SendFailed(why: SendResult) | CountMismatch

  class Player {
    const w: WriteHalf
    var basicTimestamp: nat
    var basicAudioTimestamp: nat
    var basicVideoTimestamp: nat
    var msgCount: nat
    var bytesCount: nat

    /** The byte count is that of everything queued, and nothing is queued that is not counted. */
    ghost predicate Balanced()
      reads this, w
    {
      bytesCount == |w.Pending()| && (msgCount == 0 ==> bytesCount == 0)
    }

    ghost function Time(): Clock
      reads this
    {
      Clock(basicAudioTimestamp, basicVideoTimestamp, basicTimestamp)
    }

    constructor (w: WriteHalf)
      ensures this.w == w && Time() == Clock(0, 0, 0) && ClockOk(Time()) && msgCount == bytesCount == 0
    {
      this.w := w;
      basicTimestamp, basicAudioTimestamp, basicVideoTimestamp, msgCount, bytesCount := 0, 0, 0, 0, 0;
    }

    method UpdateBaseTimestamp(messageTypeId: nat, timestamp: nat)
      modifies this`basicTimestamp, this`basicAudioTimestamp, this`basicVideoTimestamp
      ensures var audio := if messageTypeId == AUDIO then timestamp else old(basicAudioTimestamp);
              var video := if messageTypeId == VIDEO then timestamp else old(basicVideoTimestamp);
              Time() == Clock(audio, video, if audio > video then audio else video)
    {
      if messageTypeId == AUDIO {
        basicAudioTimestamp := timestamp;
      } else if messageTypeId == VIDEO {
        basicVideoTimestamp := timestamp;
      }
      if basicAudioTimestamp > basicVideoTimestamp {
        basicTimestamp := basicAudioTimestamp;
      } else {
        basicTimestamp := basicVideoTimestamp;
      }
    }

    /** The message for a packet, its timestamp repaired. */
    method Compose(p: Packet) returns (m: Message)
      ensures m == MessageFor(Time(), p)
    {
      var csid, messageTypeId := 0, 0;
      match p.kind {
        case 0x08 => csid, messageTypeId := 4, AUDIO;
        case 0x09 => csid, messageTypeId := 6, VIDEO;
        case 0x12 => csid, messageTypeId := 6, METADATA;
        case _ => {}
      }
      var timestamp := p.timestamp;
      if timestamp < basicTimestamp {
        timestamp := (basicTimestamp + FRAME_MS) % U32;
      }
      return Message(csid, timestamp, messageTypeId, p.streamId, p.data);
    }

    /** Queues one packet. The clock moves before the message is encoded, so it moves even when
        the encoding fails. */
    method SendAvPacket(p: Packet) returns (r: Outcome)
      requires w.Valid() && Balanced() && ClockOk(Time()) && p.timestamp < U32
      modifies this, w`pool, w`queue, w`pieces, PoolArrays(w.pool)
      ensures w.Valid() && Balanced() && ClockOk(Time())
      ensures fresh(w.Buffers() - old(w.Buffers()))
      ensures Time() == Tick(old(Time()), p)
      ensures r == Fine <==> Goes(p)
      ensures r != Fine ==> w.Pending() == old(w.Pending()) && msgCount == old(msgCount)
      ensures r == Fine ==>
                && w.Pending() == old(w.Pending()) + SendBytes(MessageFor(old(Time()), p), w.localChunkSize)
                && msgCount == old(msgCount) + 1
    {
      hide SendBytes, Fits, EndsWithHeader;
      if p.kind == METADATA && p.rejected {
        return ReformFailed;
      }
      var m := Compose(p);
      UpdateBaseTimestamp(m.typeId, m.timestamp);
      SmallFits(w, m.csid);
      var pick: nat := *;
      var sent := w.SendIntegralMessage(m, pick);
      if !sent.Sent? {
        return SendFailed(sent);
      }
      bytesCount := bytesCount + sent.n;
      msgCount := msgCount + 1;
      return Fine;
    }

    /** Flushes when something is queued and the merge time has passed. The count it checks is
        always right while the player is the connection's only writer. */
    method FlushAvPacket(elapsed: bool) returns (r: Outcome)
      requires w.Valid() && Balanced()
      modifies this`msgCount, this`bytesCount, w`queue, w`pieces, w`pool, w`wire
      ensures w.Valid() && Balanced() && r == Fine
      ensures w.wire + w.Pending() == old(w.wire + w.Pending()) && w.Buffers() == old(w.Buffers())
      ensures elapsed ==> w.Pending() == []
      ensures if 0 < old(msgCount) && elapsed
              then w.Pending() == [] && msgCount == 0 && w.wire == old(w.wire) + old(w.Pending())
              else w.Pending() == old(w.Pending()) && w.wire == old(w.wire) && msgCount == old(msgCount)
    {
      if msgCount <= 0 || !elapsed {
        return Fine;
      }
      ghost var pending := w.Pending();
      var n := w.Flush();
      assert w.wire + [] == w.wire;
      if n != bytesCount {
        return CountMismatch;
      }
      msgCount, bytesCount := 0, 0;
      return Fine;
    }

    /** The playing loop over the packets its channel yields: flush if due, then send. It ends
        with the channel or at the first packet that cannot be sent. */
    method DoPlaying(ps: seq<Packet>, elapsed: seq<bool>) returns (n: nat, r: Outcome)
      requires w.Valid() && Balanced() && ClockOk(Time()) && Uint32Times(ps) && |elapsed| == |ps|
      modifies this, w`pool, w`queue, w`pieces, w`wire, w.Buffers()
      ensures w.Valid() && Balanced()
      ensures n <= |ps| && forall i :: 0 <= i < n ==> Goes(ps[i])
      ensures if n < |ps| then r != Fine && !Goes(ps[n]) else r == Fine
      ensures GoAll(ps[..n]) && 0 < w.localChunkSize
      ensures w.wire + w.Pending()
           == old(w.wire + w.Pending()) + SendAll(MessagesFor(old(Time()), ps[..n]), w.localChunkSize)
      ensures var due := LastDue(elapsed[..if n < |ps| then n + 1 else n]);
              if due < 0 then w.wire == old(w.wire)
              else due <= n && GoAll(ps[..due])
                   && w.wire == old(w.wire + w.Pending())
                                + SendAll(MessagesFor(old(Time()), ps[..due]), w.localChunkSize)
    {
      hide SendBytes, SendAll, WriteHalf.Valid, Goes, MessageFor, Tick, Ticks, MessagesFor, LastDue;
      hide Concat, GoodSlice, Exclusive;
      n := 0;
      ghost var c := Time();
      PositiveChunk(w);
      assert ps[..0] == [];
      assert elapsed[..0] == [];
      NothingSent(c, w.localChunkSize);
      assert w.wire + w.Pending() + [] == w.wire + w.Pending();
      ghost var due: int := -1;
      while n < |ps|
        invariant n <= |ps| && 0 < w.localChunkSize && w.Valid() && Balanced()
        invariant ClockOk(Time()) && Time() == Ticks(c, ps[..n])
        invariant fresh(w.Buffers() - old(w.Buffers())) && GoAll(ps[..n])
        invariant w.wire + w.Pending()
               == old(w.wire + w.Pending()) + SendAll(MessagesFor(c, ps[..n]), w.localChunkSize)
        invariant due == LastDue(elapsed[..n]) && due <= n && (0 <= due ==> GoAll(ps[..due]))
        invariant w.wire == if due < 0 then old(w.wire)
                            else old(w.wire + w.Pending()) + SendAll(MessagesFor(c, ps[..due]), w.localChunkSize)
      {
        r := FlushAvPacket(elapsed[n]);
        DueNext(elapsed, n);
        if elapsed[n] { due := n; }
        assert w.wire + [] == w.wire;
        assert Uint32Times(ps) && ps[n] in ps;
        assert PoolArrays(w.pool) <= w.Buffers();
        ghost var wire, pending, m := w.wire, w.Pending(), MessageFor(Time(), ps[n]);
        r := SendAvPacket(ps[n]);
        if r != Fine {
          return;
        }
        OneMore(c, ps, n, w.localChunkSize, old(w.wire + w.Pending()));
        assert wire + (pending + SendBytes(m, w.localChunkSize)) == wire + pending + SendBytes(m, w.localChunkSize);
        n := n + 1;
      }
      assert elapsed[..|ps|] == elapsed;
      r := Fine;
    }
  }

  lemma DueNext(elapsed: seq<bool>, n: nat)
    requires n < |elapsed|
    ensures LastDue(elapsed[..n + 1]) == if elapsed[n] then n else LastDue(elapsed[..n])
  {
    assert elapsed[..n + 1][..n] == elapsed[..n];
  }

  predicate GoAll(ps: seq<Packet>) { forall p :: p in ps ==> Goes(p) }

  lemma NothingSent(c: Clock, chunkSize: nat)
    requires 0 < chunkSize
    ensures GoAll([]) && Ticks(c, []) == c && SendAll(MessagesFor(c, []), chunkSize) == [] && LastDue([]) == -1
  {
  }

  lemma {:induction false} TicksSnoc(c: Clock, ps: seq<Packet>, p: Packet)
    requires GoAll(ps) && Goes(p)
    ensures Ticks(c, ps + [p]) == Tick(Ticks(c, ps), p)
    ensures GoAll(ps + [p]) && MessagesFor(c, ps + [p]) == MessagesFor(c, ps) + [MessageFor(Ticks(c, ps), p)]
    decreases |ps|
  {
    hide Tick, MessageFor, Goes;
    var all := ps + [p];
    if ps == [] {
      assert all[0] == p && all[1..] == [];
    } else {
      assert all[0] == ps[0] && all[1..] == ps[1..] + [p];
      TicksSnoc(Tick(c, ps[0]), ps[1..], p);
    }
  }

  lemma OneMore(c: Clock, ps: seq<Packet>, n: nat, chunkSize: nat, before: seq<Byte>)
    requires n < |ps| && GoAll(ps[..n]) && Goes(ps[n]) && 0 < chunkSize
    ensures Ticks(c, ps[..n + 1]) == Tick(Ticks(c, ps[..n]), ps[n]) && GoAll(ps[..n + 1])
    ensures ValidCsid(MessageFor(Ticks(c, ps[..n]), ps[n]).csid)
    ensures before + SendAll(MessagesFor(c, ps[..n]), chunkSize)
            + SendBytes(MessageFor(Ticks(c, ps[..n]), ps[n]), chunkSize)
         == before + SendAll(MessagesFor(c, ps[..n + 1]), chunkSize)
  {
    hide SendBytes, SendAll, MessagesFor, Ticks, Tick, GoAll;
    assert ps[..n + 1] == ps[..n] + [ps[n]];
    TicksSnoc(c, ps[..n], ps[n]);
    var ms, m := MessagesFor(c, ps[..n]), MessageFor(Ticks(c, ps[..n]), ps[n]);
    Changeover.OneMore(before, ms, m, chunkSize);
  }
}
