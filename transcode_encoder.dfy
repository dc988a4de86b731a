/**
 * One TranscodeEncoder instance: the track it is bound to, the two settings of
 * its input queue that it touches (threshold and stopped), its encoder id, its
 * completion handler, the kill flag and whether its worker thread is joinable;
 * and Create, which builds the instance chosen by the dispatch rule.
 */
module Transcoder {
  import opened Wrappers
  import opened EncoderDispatch

  /** int32_t. */
  newtype int32 = x: int | -0x8000_0000 <= x < 0x8000_0000

  /** Bound of the input queue, set by every Configure. */
  const MAX_QUEUE_SIZE: nat := 120

  datatype Timebase = Timebase(num: int, den: int)

  /** The output track as far as this file reads it. */
  datatype Track = Track(codec: CodecId, timebase: Timebase, hardwareAccel: bool)

  /** An encoded packet, passed on to the handler untouched. */
  datatype Packet = Packet(pts: int, data: seq<bv8>)

  /** Identity of a non-empty completion callback. */
  datatype Handler = Handler(tag: nat)

  /** One invocation of a completion callback: which callback, with which
      encoder id and which packet. */
  datatype Delivery = Delivery(handler: Handler, encoderId: int32, packet: Packet)

  /** The observable state of an instance. `joins` counts the joins of the
      worker thread; `delivered` lists the handler invocations in order. */
  datatype EncoderState = EncoderState(
    track: Option<Track>,
    queueThreshold: nat,
    queueStopped: bool,
    encoderId: int32,
    handler: Option<Handler>,
    killFlag: bool,
    threadJoinable: bool,
    joins: nat,
    delivered: seq<Delivery>)

  // ---------------------------------------------------------------------------
  // State transitions of the instance operations

  /** Configure: binds the track, null or not, and sets the queue threshold. */
  function Configured(s: EncoderState, t: Option<Track>): (r: EncoderState)
    ensures r.track == t && r.queueThreshold == MAX_QUEUE_SIZE
    ensures r.handler == s.handler && r.encoderId == s.encoderId && r.delivered == s.delivered
    ensures r.killFlag == s.killFlag && r.queueStopped == s.queueStopped
    ensures r.threadJoinable == s.threadJoinable && r.joins == s.joins
  {
    s.(track := t, queueThreshold := MAX_QUEUE_SIZE)
  }

  /** SendOutputBuffer: one handler invocation when a handler is set. */
  function OutputSent(s: EncoderState, p: Packet): (r: EncoderState)
    ensures |r.delivered| == |s.delivered| + (if s.handler.Some? then 1 else 0)
    ensures r.delivered[..|s.delivered|] == s.delivered
    ensures s.handler.Some? ==> r.delivered[|s.delivered|] == Delivery(s.handler.value, s.encoderId, p)
    ensures r.(delivered := s.delivered) == s
  {
    match s.handler
    case None => s
    case Some(h) => s.(delivered := s.delivered + [Delivery(h, s.encoderId, p)])
  }

  /** Stop: kill flag raised, queue stopped, thread joined if joinable. */
  function Stopped(s: EncoderState): (r: EncoderState)
    ensures r.killFlag && r.queueStopped && !r.threadJoinable
    ensures r.joins == s.joins + (if s.threadJoinable then 1 else 0)
    ensures r.(killFlag := s.killFlag, queueStopped := s.queueStopped,
               threadJoinable := s.threadJoinable, joins := s.joins) == s
  {
    s.(killFlag := true, queueStopped := true, threadJoinable := false,
       joins := if s.threadJoinable then s.joins + 1 else s.joins)
  }

  /** The state after `n` consecutive Stop calls. */
  function StoppedTimes(s: EncoderState, n: nat): EncoderState
  {
    if n == 0 then s else Stopped(StoppedTimes(s, n - 1))
  }

  /** The state after the packets `ps` are sent out in order. */
  function OutputsSent(s: EncoderState, ps: seq<Packet>): EncoderState
    decreases |ps|
  {
    if ps == [] then s else OutputsSent(OutputSent(s, ps[0]), ps[1..])
  }

  /** The handler invocations that sending `ps` in order should produce. */
  function Deliveries(h: Handler, id: int32, ps: seq<Packet>): (ds: seq<Delivery>)
    ensures |ds| == |ps|
    ensures forall k :: 0 <= k < |ps| ==> ds[k] == Delivery(h, id, ps[k])
    decreases |ps|
  {
    if ps == [] then [] else [Delivery(h, id, ps[0])] + Deliveries(h, id, ps[1..])
  }

  // ---------------------------------------------------------------------------
  // Properties of the transitions

  /** Configure leaves the queue threshold at MAX_QUEUE_SIZE and the track as
      given whether or not the track is null, and changes nothing else. */
  lemma ConfigureSetsTrackAndThreshold(s: EncoderState, t: Option<Track>)
    ensures Configured(s, t).track == t && Configured(s, t).queueThreshold == 120
    ensures Configured(s, t).(track := s.track, queueThreshold := s.queueThreshold) == s
    ensures Configured(Configured(s, t), t) == Configured(s, t)
  {
  }

  /** Stop called n >= 1 times ends in the same state as a single call: the
      second and later calls join nothing. */
  lemma {:induction false} StopIdempotent(s: EncoderState, n: nat)
    requires n >= 1
    ensures StoppedTimes(s, n) == Stopped(s)
    ensures StoppedTimes(s, n).joins <= s.joins + 1
    ensures !StoppedTimes(s, n).threadJoinable && StoppedTimes(s, n).killFlag && StoppedTimes(s, n).queueStopped
  {
    if n > 1 {
      StopIdempotent(s, n - 1);
    }
  }

  /** Sending packets never touches any part of the state but the list of
      handler invocations, and without a handler it changes nothing. */
  lemma {:induction false} OutputsKeepState(s: EncoderState, ps: seq<Packet>)
    ensures OutputsSent(s, ps).(delivered := s.delivered) == s
    ensures s.handler.None? ==> OutputsSent(s, ps) == s
    decreases |ps|
  {
    if ps != [] {
      OutputsKeepState(OutputSent(s, ps[0]), ps[1..]);
    }
  }

  /** With a handler set, sending packets delivers each of them exactly once,
      in order, tagged with the encoder id. */
  lemma {:induction false} OutputsDeliveredInOrder(s: EncoderState, ps: seq<Packet>)
    requires s.handler.Some?
    ensures OutputsSent(s, ps).delivered == s.delivered + Deliveries(s.handler.value, s.encoderId, ps)
    decreases |ps|
  {
    if ps != [] {
      var h, id := s.handler.value, s.encoderId;
      var s' := OutputSent(s, ps[0]);
      assert s'.delivered == s.delivered + [Delivery(h, id, ps[0])];
      assert s'.handler == s.handler && s'.encoderId == id;
      OutputsDeliveredInOrder(s', ps[1..]);
      assert s.delivered + [Delivery(h, id, ps[0])] + Deliveries(h, id, ps[1..])
          == s.delivered + Deliveries(h, id, ps);
    }
  }

  // ---------------------------------------------------------------------------
  // The instance

  /** TranscodeEncoder; `backend` is the concrete subclass that was constructed. */
  class TranscodeEncoder {
    const backend: Backend
    var track: Option<Track>
    var queueThreshold: nat
    var queueStopped: bool
    var encoderId: int32
    var handler: Option<Handler>
    var killFlag: bool
    var threadJoinable: bool
    ghost var joins: nat
    ghost var delivered: seq<Delivery>

    ghost function State(): EncoderState
      reads this
    {
      EncoderState(track, queueThreshold, queueStopped, encoderId, handler,
                   killFlag, threadJoinable, joins, delivered)
    }

    /** A new instance of the concrete class `b`: no track, no handler, no
        thread, nothing stopped. */
    constructor (b: Backend)
      ensures backend == b
      ensures track.None? && handler.None?
      ensures !killFlag && !queueStopped && !threadJoinable
      ensures joins == 0 && delivered == []
      ensures GetRefTrack().None?
    {
      backend := b;
      track := None;
      handler := None;
      killFlag, queueStopped, threadJoinable := false, false, false;
      joins, delivered := 0, [];
    }

    /** Binds the track and sizes the input queue; succeeds iff the track is
        non-null. */
    method Configure(t: Option<Track>) returns (ok: bool)
      modifies this
      ensures State() == Configured(old(State()), t)
      ensures ok <==> t.Some?
      ensures GetRefTrack() == t
      ensures t.Some? ==> GetTimebase() == t.value.timebase
    {
      track := t;
      queueThreshold := MAX_QUEUE_SIZE;
      ok := track.Some?;
    }

    /** The Configure of the concrete class: the base Configure followed by
        the backend's own negotiation, whose outcome is `accepts(backend)`. */
    method ConfigureBackend(t: Option<Track>, accepts: Backend -> bool) returns (ok: bool)
      modifies this
      ensures State() == Configured(old(State()), t)
      ensures ok <==> t.Some? && accepts(backend)
    {
      ok := Configure(t);
      ok := ok && accepts(backend);
    }

    method SetEncoderId(id: int32)
      modifies this
      ensures State() == old(State()).(encoderId := id)
    {
      encoderId := id;
    }

    method SetOnCompleteHandler(h: Option<Handler>)
      modifies this
      ensures State() == old(State()).(handler := h)
    {
      handler := h;
    }

    /** Passes a packet to the handler together with the encoder id, or drops
        it when no handler is set. */
    method SendOutputBuffer(p: Packet)
      modifies this
      ensures State() == OutputSent(old(State()), p)
      ensures old(handler).Some? ==> delivered == old(delivered) + [Delivery(old(handler).value, encoderId, p)]
      ensures old(handler).None? ==> delivered == old(delivered)
    {
      if handler.Some? {
        delivered := delivered + [Delivery(handler.value, encoderId, p)];
      }
    }

    /** Raises the kill flag, stops the queue, and joins the worker thread if
        it is joinable. */
    method Stop()
      modifies this
      ensures State() == Stopped(old(State()))
    {
      killFlag := true;
      queueStopped := true;
      if threadJoinable {
        joins := joins + 1;
        threadJoinable := false;
      }
    }

    /** The timebase of the bound track; the track must be non-null, since it
        is dereferenced. */
    function GetTimebase(): (tb: Timebase)
      reads this
      requires track.Some?
      ensures tb == track.value.timebase
    {
      track.value.timebase
    }

    /** The bound track, null before Configure. */
    function GetRefTrack(): (t: Option<Track>)
      reads this
      ensures t == State().track
    {
      track
    }

    /**
     * Tries the candidates of the track's codec in order, constructing and
     * configuring each, and stops at the first that accepts. The local pointer
     * keeps the last constructed candidate; if there is one, it receives the
     * encoder id and the handler. `tried` lists the constructed candidates.
     */
    static method Create(id: int32, outputTrack: Track, onComplete: Option<Handler>,
                         p: Platform, accepts: Backend -> bool)
      returns (encoder: TranscodeEncoder?, ghost tried: seq<Backend>)
      ensures var cs := Candidates(outputTrack.codec, outputTrack.hardwareAccel, p);
        tried == Tried(cs, accepts)
      ensures encoder == null <==> Dispatch(outputTrack.codec, outputTrack.hardwareAccel, p, accepts).None?
      ensures encoder != null ==>
        && fresh(encoder)
        && Some(encoder.backend) == Dispatch(outputTrack.codec, outputTrack.hardwareAccel, p, accepts)
        && encoder.encoderId == id
        && encoder.handler == onComplete
        && encoder.track == Some(outputTrack)
        && encoder.queueThreshold == MAX_QUEUE_SIZE
        && !encoder.killFlag && !encoder.queueStopped && !encoder.threadJoinable
        && encoder.delivered == []
    {
      var cs := Candidates(outputTrack.codec, outputTrack.hardwareAccel, p);
      encoder := null;
      tried := [];
      var i := 0;
      var done := false;
      while i < |cs| && !done
        invariant 0 <= i <= |cs|
        invariant tried == cs[..i]
        invariant encoder == null <==> i == 0
        invariant encoder != null ==>
          && fresh(encoder)
          && encoder.backend == cs[i - 1]
          && encoder.handler.None?
          && encoder.track == Some(outputTrack)
          && encoder.queueThreshold == MAX_QUEUE_SIZE
          && !encoder.killFlag && !encoder.queueStopped && !encoder.threadJoinable
          && encoder.delivered == []
        invariant done ==> i > 0 && accepts(cs[i - 1]) && NoneAccepted(cs[..i - 1], accepts)
        invariant !done ==> NoneAccepted(cs[..i], accepts)
      {
        encoder := new TranscodeEncoder(cs[i]);
        var ok := encoder.ConfigureBackend(Some(outputTrack), accepts);
        tried := tried + [cs[i]];
        i := i + 1;
        done := ok;
      }
      if done {
        FirstAcceptedWins(cs, i - 1, None, accepts);
      } else {
        assert cs[..i] == cs;
        NoneAcceptedGivesLast(cs, None, accepts);
      }
      if encoder != null {
        encoder.SetEncoderId(id);
        encoder.SetOnCompleteHandler(onComplete);
      }
    }
  }
}
