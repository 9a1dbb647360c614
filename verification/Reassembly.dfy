/** Reassembling fragments per stream (cacheFragment and getMessage of mavlink_protobuf_manager.hpp). */
module Reassembly {
  import opened Bits
  import opened CrcStep
  import opened MavlinkMessages
  import opened Fragments

  /** Fragment queues by stream, and the latest message of every registered type. */
  datatype ManagerData = ManagerData(queues: map<word, seq<Fragment>>, available: seq<bool>, messages: seq<seq<byte>>)
  type Manager = m: ManagerData | |m.available| == |m.messages| witness ManagerData(map[], [], [])

  function StreamOf(f: Fragment): word { HeaderOf(f).streamId }

  function QueueOf(m: Manager, streamId: word): seq<Fragment> {
    if streamId in m.queues then m.queues[streamId] else []
  }

  /** Rejects only when both check bytes differ from the recomputed checksum. */
  predicate ValidFragment(link: Link, f: Fragment) {
    && f.base.magic == MAVLINK_STX && f.base.len == EXTENDED_HEADER_LEN && f.base.msgid == EXTENDED_MESSAGE_ID
    && var crc := BodyCrc(link.accumulate, link.extra(f.base.msgid), Body(f.base));
       !(f.base.buffer[14] != LowByte(crc) && f.base.buffer[15] != HighByte(crc))
  }

  /** Where the fragment after f must start, in 32-bit arithmetic. */
  function NextOffset(f: Fragment): uint32 {
    (HeaderOf(f).length + HeaderOf(f).offset) % 0x1_0000_0000
  }

  /** Whether f may follow what its stream has queued so far. */
  predicate Continues(queue: seq<Fragment>, f: Fragment) {
    HeaderOf(f).offset == EndOffset(queue)
  }

  /** What becomes of a stream's queue when f arrives. */
  function Extended(queue: seq<Fragment>, f: Fragment): seq<Fragment> {
    if Continues(queue, f) then queue + [f] else []
  }

  /** One call of cacheFragment on a fragment of a registered type that passed validFragment. */
  function Store(m: Manager, f: Fragment, id: word, code: byte): (r: ManagerData)
    requires code < |m.messages|
    ensures |r.available| == |r.messages| == |m.messages|
  {
    var queue := Extended(QueueOf(m, id), f);
    if queue == [] && QueueOf(m, id) == [] then m
    else if queue == [] || More(f) then m.(queues := m.queues[id := queue])
    else ManagerData(m.queues[id := []], m.available[code := true], m.messages[code := Concat(queue)])
  }

  predicate Cacheable(link: Link, m: Manager, f: Fragment) {
    ValidFragment(link, f) && HeaderOf(f).typecode < |m.messages|
  }

  function Cache(link: Link, m: Manager, f: Fragment): Manager {
    if Cacheable(link, m, f) then Store(m, f, StreamOf(f), HeaderOf(f).typecode) else m
  }

  function CacheAll(link: Link, m: Manager, fs: seq<Fragment>): Manager {
    if fs == [] then m else Cache(link, CacheAll(link, m, fs[..|fs| - 1]), fs[|fs| - 1])
  }

  // ----- Queues under arbitrary delivery

  predicate Consistent(f: Fragment) {
    HeaderOf(f).length == |f.payload|
  }

  /** Empty, or contiguous from offset 0 without a final fragment. */
  predicate Chain(queue: seq<Fragment>) {
    forall i :: 0 <= i < |queue| ==> Consistent(queue[i]) && More(queue[i]) && Continues(queue[..i], queue[i])
  }

  predicate AllChains(m: Manager) {
    forall id :: id in m.queues ==> Chain(m.queues[id])
  }

  lemma {:induction false} ChainSnoc(queue: seq<Fragment>, f: Fragment)
    requires Chain(queue) && Consistent(f) && More(f) && Continues(queue, f)
    ensures Chain(queue + [f])
  {
    var q := queue + [f];
    forall i | 0 <= i < |q|
      ensures Consistent(q[i]) && More(q[i]) && Continues(q[..i], q[i])
    {
      if i < |queue| {
        assert q[..i] == queue[..i];
      } else {
        assert q[..i] == queue;
      }
    }
  }

  /** Whatever arrives, with lengths that match the payloads, every queue stays empty or a chain. */
  lemma {:induction false} QueuesStayChains(link: Link, m: Manager, fs: seq<Fragment>)
    requires AllChains(m) && forall i :: 0 <= i < |fs| ==> Consistent(fs[i])
    ensures AllChains(CacheAll(link, m, fs)) && |CacheAll(link, m, fs).messages| == |m.messages|
    decreases |fs|
  {
    if fs != [] {
      var before, f := CacheAll(link, m, fs[..|fs| - 1]), fs[|fs| - 1];
      QueuesStayChains(link, m, fs[..|fs| - 1]);
      if Cacheable(link, before, f) {
        StoreKeepsChains(before, f, StreamOf(f), HeaderOf(f).typecode);
      }
    }
  }

  /** Only the queue of the fragment's stream changes: it is empty afterwards, or longer by the fragment. */
  lemma {:induction false} StoredQueues(m: Manager, f: Fragment, id: word, code: byte, queue: seq<Fragment>, r: ManagerData)
    requires code < |m.messages| && r == Store(m, f, id, code) && queue == QueueOf(m, id)
    ensures forall other :: other in r.queues && other != id ==> other in m.queues && r.queues[other] == m.queues[other]
    ensures id in r.queues && r.queues[id] != [] ==> Continues(queue, f) && More(f) && r.queues[id] == queue + [f]
  {
  }

  lemma {:induction false} StoreKeepsChains(m: Manager, f: Fragment, id: word, code: byte)
    requires AllChains(m) && Consistent(f) && code < |m.messages|
    ensures AllChains(Store(m, f, id, code))
  {
    var queue, r := QueueOf(m, id), Store(m, f, id, code);
    assert Chain(queue);
    StoredQueues(m, f, id, code, queue, r);
    if id in r.queues && r.queues[id] != [] {
      ChainSnoc(queue, f);
    }
  }

  /** Where the next fragment of a queue must start. */
  function EndOffset(queue: seq<Fragment>): uint32 {
    if queue == [] then 0 else NextOffset(queue[|queue| - 1])
  }

  lemma {:induction false} EndOffsetSnoc(queue: seq<Fragment>, f: Fragment, offset: nat, size: nat)
    requires Consistent(f) && offset == HeaderOf(f).offset && size == |f.payload|
    ensures EndOffset(queue + [f]) == (size + offset) % 0x1_0000_0000
  {
  }

  /** In a chain every fragment starts where the payload bytes before it end. */
  lemma {:induction false} ChainOffsets(queue: seq<Fragment>)
    requires Chain(queue)
    ensures EndOffset(queue) == |Concat(queue)| % 0x1_0000_0000
    decreases |queue|
  {
    if queue != [] {
      var front, f := ChainSplit(queue);
      ChainOffsets(front);
      ConcatSnoc(front, f);
      AddModulo(|Concat(front)|, |f.payload|, EndOffset(front));
    }
  }

  lemma {:induction false} ChainSplit(queue: seq<Fragment>) returns (front: seq<Fragment>, f: Fragment)
    requires Chain(queue) && queue != []
    ensures queue == front + [f] && Chain(front)
    ensures EndOffset(queue) == (|f.payload| + EndOffset(front)) % 0x1_0000_0000
  {
    var n := |queue| - 1;
    front, f := queue[..n], queue[n];
    assert Continues(queue[..n], f);
    assert queue == front + [f];
    EndOffsetSnoc(front, f, EndOffset(front), |f.payload|);
    forall i | 0 <= i < n
      ensures Consistent(front[i]) && More(front[i]) && Continues(front[..i], front[i])
    {
      assert front[..i] == queue[..i];
    }
  }

  lemma {:induction false} AddModulo(total: nat, more: nat, offset: nat)
    requires offset == total % 0x1_0000_0000
    ensures (more + offset) % 0x1_0000_0000 == (total + more) % 0x1_0000_0000
  {
  }

  /**
   * A message is replaced only by the payloads of a chain from offset 0 closed by its final fragment,
   * whose offset is the number of bytes before it.
   */
  lemma {:induction false} StoreCompletesChain(m: Manager, f: Fragment, id: word, code: byte, other: nat)
    requires AllChains(m) && Consistent(f) && code < |m.messages|
    requires other < |m.messages| && Store(m, f, id, code).messages[other] != m.messages[other]
    ensures var queue := QueueOf(m, id);
            && other == code && Chain(queue) && !More(f)
            && Store(m, f, id, code).messages[other] == Concat(queue) + f.payload
            && HeaderOf(f).offset == |Concat(queue)| % 0x1_0000_0000
  {
    var queue := QueueOf(m, id);
    ConcatSnoc(queue, f);
    ChainOffsets(queue);
  }

  // ----- In-order delivery, interleaved with other streams

  /** The fragments of one stream, in order of arrival. */
  function Select(fs: seq<Fragment>, streamId: word): seq<Fragment> {
    if fs == [] then []
    else Select(fs[..|fs| - 1], streamId) + if StreamOf(fs[|fs| - 1]) == streamId then [fs[|fs| - 1]] else []
  }

  /** Fragments that one sender produced from data and that the receiver accepts. */
  predicate Acceptable(link: Link, m: Manager, r: Route, data: seq<byte>, sent: seq<Fragment>) {
    && Fits(r, |data|) && AreFragments(r, data, sent) && r.typecode < |m.messages|
    && forall i :: 0 <= i < |sent| ==> ValidFragment(link, sent[i])
  }

  lemma {:induction false} OtherStream(link: Link, m: Manager, f: Fragment, streamId: word)
    requires StreamOf(f) != streamId
    ensures QueueOf(Cache(link, m, f), streamId) == QueueOf(m, streamId)
  {
  }

  lemma {:induction false} FragmentContinues(r: Route, data: seq<byte>, sent: seq<Fragment>, i: nat)
    requires Fits(r, |data|) && AreFragments(r, data, sent) && i < |sent|
    ensures Continues(sent[..i], sent[i])
    ensures StreamOf(sent[i]) == r.streamId && HeaderOf(sent[i]).typecode == r.typecode
    ensures More(sent[i]) <==> i < |sent| - 1
  {
    SliceOf(r, data, sent, i);
    if i > 0 {
      SliceOf(r, data, sent, i - 1);
      SliceFollows(r, data, sent[i - 1], sent[i], (i - 1) * r.maxPayload, i * r.maxPayload);
      assert sent[..i][|sent[..i]| - 1] == sent[i - 1];
    }
  }

  lemma {:induction false} SliceFollows(r: Route, data: seq<byte>, f: Fragment, g: Fragment, here: nat, next: nat)
    requires Fits(r, |data|) && here < |data| && next < |data| && here + |f.payload| == next
    requires HeaderOf(f) == HeaderAt(r, |data|, here) && HeaderOf(g) == HeaderAt(r, |data|, next)
    requires |f.payload| == HeaderOf(f).length
    ensures HeaderOf(g).offset == NextOffset(f)
  {
  }

  lemma {:induction false} StoreContinued(m: Manager, f: Fragment, id: word, code: byte, queue: seq<Fragment>, next: seq<Fragment>)
    requires code < |m.messages| && QueueOf(m, id) == queue && Continues(queue, f) && next == queue + [f]
    ensures var r := Store(m, f, id, code);
            if More(f) then id in r.queues && r.queues[id] == next
            else id in r.queues && r.queues[id] == [] && r.available[code] && r.messages[code] == Concat(next)
  {
  }

  /** The next fragment in order extends the queue, and the last one completes the message. */
  lemma {:induction false} NextInOrder(link: Link, m: Manager, r: Route, data: seq<byte>, sent: seq<Fragment>, i: nat)
    requires Acceptable(link, m, r, data, sent) && i < |sent| && QueueOf(m, r.streamId) == sent[..i]
    ensures var after := Cache(link, m, sent[i]);
            if i < |sent| - 1 then QueueOf(after, r.streamId) == sent[..i + 1]
            else QueueOf(after, r.streamId) == [] && after.available[r.typecode] && after.messages[r.typecode] == data
  {
    FragmentContinues(r, data, sent, i);
    var next := sent[..i + 1];
    assert next == sent[..i] + [sent[i]];
    StoreContinued(m, sent[i], r.streamId, r.typecode, sent[..i], next);
    if i == |sent| - 1 {
      FragmentsPartition(r, data, sent, |sent|);
      assert next == sent && sent[..|sent|] == sent && data[..|data|] == data;
    }
  }

  lemma {:induction false} CacheKeepsSlots(link: Link, m: Manager, fs: seq<Fragment>)
    ensures |CacheAll(link, m, fs).messages| == |m.messages|
    decreases |fs|
  {
    if fs != [] {
      CacheKeepsSlots(link, m, fs[..|fs| - 1]);
    }
  }

  /** Before the last fragment of a stream arrives, its queue holds what has arrived of it. */
  lemma {:induction false} InOrderQueue(link: Link, m: Manager, fs: seq<Fragment>, r: Route, data: seq<byte>,
                                        sent: seq<Fragment>, n: nat)
    requires Acceptable(link, m, r, data, sent) && QueueOf(m, r.streamId) == []
    requires n < |sent| && Select(fs, r.streamId) == sent[..n]
    ensures QueueOf(CacheAll(link, m, fs), r.streamId) == sent[..n]
    decreases |fs|
  {
    if fs != [] {
      var front, f := fs[..|fs| - 1], fs[|fs| - 1];
      CacheKeepsSlots(link, m, front);
      if StreamOf(f) == r.streamId {
        SelectSnoc(Select(front, r.streamId), f, sent, n);
        InOrderQueue(link, m, front, r, data, sent, n - 1);
        NextInOrder(link, CacheAll(link, m, front), r, data, sent, n - 1);
      } else {
        InOrderQueue(link, m, front, r, data, sent, n);
        OtherStream(link, CacheAll(link, m, front), f, r.streamId);
      }
    }
  }

  lemma {:induction false} SelectSnoc(chosen: seq<Fragment>, f: Fragment, sent: seq<Fragment>, n: nat)
    requires n <= |sent| && chosen + [f] == sent[..n]
    ensures n > 0 && chosen == sent[..n - 1] && f == sent[n - 1]
  {
    var both := chosen + [f];
    assert chosen == both[..|chosen|] && f == both[|chosen|];
  }

  /**
   * When all fragments of a message have arrived in order, however other streams were interleaved,
   * the arrival of the last one makes exactly the original bytes available.
   */
  lemma {:induction false} Reassembles(link: Link, m: Manager, front: seq<Fragment>, r: Route, data: seq<byte>, sent: seq<Fragment>)
    requires Acceptable(link, m, r, data, sent) && QueueOf(m, r.streamId) == [] && |sent| > 0
    requires Select(front, r.streamId) == sent[..|sent| - 1]
    ensures var after := CacheAll(link, m, front + [sent[|sent| - 1]]);
            && r.typecode < |after.messages|
            && after.messages[r.typecode] == data && after.available[r.typecode]
            && QueueOf(after, r.streamId) == []
  {
    var n := |sent| - 1;
    CacheKeepsSlots(link, m, front);
    InOrderQueue(link, m, front, r, data, sent, n);
    var before := CacheAll(link, m, front);
    NextInOrder(link, before, r, data, sent, n);
    assert (front + [sent[n]])[..|front|] == front;
    assert CacheAll(link, m, front + [sent[n]]) == Cache(link, before, sent[n]);
  }

  // ----- The manager as it is updated in place

  class ProtobufManager {
    const link: Link
    var fragmentQueue: map<word, seq<Fragment>>
    var messageAvailable: seq<bool>
    var messages: seq<seq<byte>>

    ghost predicate Valid()
      reads this
    {
      |messageAvailable| == |messages|
    }

    ghost function View(): Manager
      requires Valid()
      reads this
    {
      ManagerData(fragmentQueue, messageAvailable, messages)
    }

    constructor (link: Link, registered: nat)
      ensures Valid() && View() == ManagerData(map[], seq(registered, _ => false), seq(registered, _ => []))
      ensures this.link == link
    {
      this.link := link;
      fragmentQueue := map[];
      messageAvailable := seq(registered, _ => false);
      messages := seq(registered, _ => []);
    }

    method CacheFragment(msg: Fragment) returns (taken: bool)
      requires Valid()
      modifies this
      ensures Valid() && View() == Cache(link, old(View()), msg)
      ensures taken == Cacheable(link, old(View()), msg)
    {
      if !ValidFragment(link, msg) {
        return false;
      }
      var typecode := HeaderOf(msg).typecode;
      if typecode >= |messages| {
        return false;
      }
      Enqueue(msg, StreamOf(msg), HeaderOf(msg).offset, typecode);
      taken := true;
    }

    method Enqueue(msg: Fragment, streamId: word, offset: uint32, typecode: byte)
      requires Valid() && typecode < |messages| && offset == HeaderOf(msg).offset
      modifies this
      ensures Valid() && View() == Store(old(View()), msg, streamId, typecode)
    {
      var reassemble := false;
      ghost var queued := QueueOf(View(), streamId);
      assert [] + [msg] == [msg];
      if streamId !in fragmentQueue || fragmentQueue[streamId] == [] {
        if offset == 0 {
          fragmentQueue := fragmentQueue[streamId := [msg]];
          reassemble := !More(msg);
        }
      } else {
        var queue := fragmentQueue[streamId];
        if NextOffset(queue[|queue| - 1]) != offset {
          fragmentQueue := fragmentQueue[streamId := []];
        } else {
          fragmentQueue := fragmentQueue[streamId := queue + [msg]];
          reassemble := !More(msg);
        }
      }
      assert Continues(queued, msg) ==> fragmentQueue == old(fragmentQueue)[streamId := queued + [msg]];
      assert reassemble <==> Continues(queued, msg) && !More(msg);
      if reassemble {
        Deliver(streamId, typecode);
        assert fragmentQueue == old(fragmentQueue)[streamId := []];
      }
    }

    method Deliver(streamId: word, typecode: byte)
      requires Valid() && typecode < |messages| && streamId in fragmentQueue
      modifies this
      ensures Valid() && View() == ManagerData(old(fragmentQueue)[streamId := []], old(messageAvailable)[typecode := true],
                                               old(messages)[typecode := Concat(old(fragmentQueue)[streamId])])
    {
      var data := AppendPayloads(fragmentQueue[streamId]);
      messages := messages[typecode := data];
      messageAvailable := messageAvailable[typecode := true];
      fragmentQueue := fragmentQueue[streamId := []];
    }

    method AppendPayloads(queue: seq<Fragment>) returns (data: seq<byte>)
      ensures data == Concat(queue)
    {
      data := [];
      var i := 0;
      while i < |queue|
        invariant i <= |queue| && data == Concat(queue[..i])
      {
        assert queue[..i + 1] == queue[..i] + [queue[i]];
        ConcatSnoc(queue[..i], queue[i]);
        data := data + queue[i].payload;
        i := i + 1;
      }
      assert queue[..i] == queue;
    }

    /** Hands out the available message of the lowest type code, and only that one. */
    method GetMessage() returns (found: bool, code: nat, data: seq<byte>)
      requires Valid()
      modifies this`messageAvailable
      ensures Valid() && (found <==> true in old(messageAvailable))
      ensures found ==> code < |messages| && data == messages[code] && old(messageAvailable)[code]
                        && messageAvailable == old(messageAvailable)[code := false]
                        && forall j :: 0 <= j < code ==> !old(messageAvailable)[j]
      ensures !found ==> messageAvailable == old(messageAvailable)
    {
      found, code, data := false, 0, [];
      var i := 0;
      while i < |messageAvailable|
        invariant i <= |messageAvailable| && messageAvailable == old(messageAvailable)
        invariant forall j :: 0 <= j < i ==> !messageAvailable[j]
      {
        if messageAvailable[i] {
          found, code, data := true, i, messages[i];
          messageAvailable := messageAvailable[i := false];
          return;
        }
        i := i + 1;
      }
    }
  }
}
