/**
 A substream on the wire: the listener's end is the inbound substream, whose socket operations
 are the moves of the two byte channels. What the substream's history says is what the dialer
 sees, and the other way round.
 */
module Session {
  import opened Wrappers
  import opened Substream
  import Wire

  datatype Session = Session(pair: Wire.Pair, sub: Sub)

  /** Bytes move, the handler accepts with its handshake, or the substream takes one turn of its poll loop. */
  datatype Act = Network(move: Wire.Move) | Accept | Poll(answer: Answer)

  function Begin(dialer: Bytes): Session {
    Session(Wire.Start(dialer), FRESH)
  }

  /** The substream is still held after the turn. */
  predicate Kept(t: Turn<NextResult>) {
    t.Again? || Held(t.result)
  }

  /**
   The socket answers as the bytes have it: a flush is done when every byte was handed to the
   network, and a frame is read when all of it has arrived.
   */
  predicate Can(s: Session, act: Act) {
    match act
    case Network(m) => !m.ListenerAnswers? && !m.ListenerTakes? && Wire.Enabled(s.pair, m)
    case Accept => Wire.Reading(s.pair.listenerRead).Received?
    case Poll(a) =>
      && Kept(NextTurn(s.sub, a))
      && (a.flush.ReadyOk? ==> s.pair.listenerOut == [])
      && (a.next.NextFrame? ==> Wire.TakeFrame(s.pair.toListener).Some?
                                && Wire.TakeFrame(s.pair.toListener).value.0 == a.next.frame)
  }

  /** What a turn of the substream does to the bytes. */
  function OnWire(s: Session, a: Answer): Option<Wire.Move> {
    if s.sub.phase.Sending? && !a.ready.Pending? && a.sendOk then Some(Wire.ListenerAnswers)
    else if s.sub.phase.Done? && a.next.NextFrame? then Some(Wire.ListenerTakes)
    else None
  }

  /** The handshake the substream sends, if it is about to. */
  function Own(sub: Sub): Bytes {
    if sub.phase.Sending? then sub.phase.handshake else []
  }

  ghost predicate Performs(s: Session, act: Act, listener: Bytes, s': Session) {
    && Can(s, act)
    && match act
       case Network(m) => s' == s.(pair := Wire.Apply(s.pair, m, []))
       case Accept => s' == s.(sub := WithHandshake(s.sub, listener))
       case Poll(a) =>
         && s'.sub == NextTurn(s.sub, a).sub
         && match OnWire(s, a)
            case None => s'.pair == s.pair
            case Some(m) => Wire.Enabled(s.pair, m) && s'.pair == Wire.Apply(s.pair, m, Own(s.sub))
  }

  ghost predicate Runs(dialer: Bytes, listener: Bytes, acts: seq<Act>, s: Session)
    decreases |acts|
  {
    if acts == [] then s == Begin(dialer)
    else
      var last := |acts| - 1;
      exists r: Session :: Runs(dialer, listener, acts[..last], r) && Performs(r, acts[last], listener, s)
  }

  ghost predicate Tied(dialer: Bytes, listener: Bytes, s: Session) {
    && Wire.Between(dialer, listener, s.pair)
    && WellPhased(s.sub, listener)
    && (Rank(s.sub.phase) >= 1 ==> Wire.Reading(s.pair.listenerRead).Received?)
    && (s.pair.answered <==> Rank(s.sub.phase) >= 2)
    && (Rank(s.sub.phase) >= 3 ==> s.pair.listenerOut == [])
    && FramesIn(s.sub.log) == s.pair.taken
  }

  lemma NetworkKeeps(dialer: Bytes, listener: Bytes, s: Session, m: Wire.Move)
    requires |dialer| < Wire.USIZE && |listener| < Wire.USIZE
    requires Tied(dialer, listener, s) && Can(s, Network(m))
    ensures Tied(dialer, listener, s.(pair := Wire.Apply(s.pair, m, [])))
  {
    Wire.MoveKeeps(dialer, listener, s.pair, m);
    assert Wire.Apply(s.pair, m, []) == Wire.Apply(s.pair, m, listener);
  }

  lemma TurnPhase(s: Sub, a: Answer, h: Bytes)
    requires WellPhased(s, h) && Kept(NextTurn(s, a))
    ensures WellPhased(NextTurn(s, a).sub, h)
  {
  }

  /** The frames handed out grow by the frame of a read, and by nothing else. */
  lemma TurnFrames(s: Sub, a: Answer)
    requires Kept(NextTurn(s, a))
    ensures FramesIn(NextTurn(s, a).sub.log) ==
            if s.phase.Done? && a.next.NextFrame? then FramesIn(s.log) + [a.next.frame] else FramesIn(s.log)
  {
    TurnHandsOut(s, a);
  }

  /** How a turn moves the phase: onto `Flush` only with the handshake, onto `Done` only with the flush. */
  lemma TurnRank(s: Sub, a: Answer)
    requires Kept(NextTurn(s, a))
    ensures var t := NextTurn(s, a).sub;
            && Rank(s.phase) <= Rank(t.phase)
            && (Rank(t.phase) >= 1 <==> Rank(s.phase) >= 1)
            && (Rank(t.phase) >= 2 <==> Rank(s.phase) >= 2 || (s.phase.Sending? && !a.ready.Pending? && a.sendOk))
            && (Rank(t.phase) >= 3 ==> Rank(s.phase) >= 3 || (s.phase.Flush? && a.flush.ReadyOk?))
  {
  }

  lemma PollKeeps(dialer: Bytes, listener: Bytes, s: Session, a: Answer, s': Session)
    requires |dialer| < Wire.USIZE && |listener| < Wire.USIZE
    requires Tied(dialer, listener, s) && Performs(s, Poll(a), listener, s')
    ensures Tied(dialer, listener, s')
  {
    TurnPhase(s.sub, a, listener);
    TurnFrames(s.sub, a);
    TurnRank(s.sub, a);
    if OnWire(s, a).Some? {
      WireKeeps(dialer, listener, s, OnWire(s, a).value);
    }
  }

  /** The two moves of the wire that the substream makes. */
  lemma WireKeeps(dialer: Bytes, listener: Bytes, s: Session, m: Wire.Move)
    requires |dialer| < Wire.USIZE && |listener| < Wire.USIZE && Tied(dialer, listener, s) && Wire.Enabled(s.pair, m)
    requires (m.ListenerAnswers? && s.sub.phase.Sending?) || m.ListenerTakes?
    ensures var p := Wire.Apply(s.pair, m, Own(s.sub));
            && Wire.Between(dialer, listener, p) && p.listenerRead == s.pair.listenerRead
            && p.answered == (s.pair.answered || m.ListenerAnswers?)
            && (m.ListenerTakes? ==> p.listenerOut == s.pair.listenerOut
                                     && p.taken == s.pair.taken + [Wire.TakeFrame(s.pair.toListener).value.0])
            && (m.ListenerAnswers? ==> p.taken == s.pair.taken)
  {
    Wire.MoveKeeps(dialer, listener, s.pair, m);
    assert Wire.Apply(s.pair, m, Own(s.sub)) == Wire.Apply(s.pair, m, listener);
  }

  lemma PerformsKeeps(dialer: Bytes, listener: Bytes, s: Session, act: Act, s': Session)
    requires |dialer| < Wire.USIZE && |listener| < Wire.USIZE
    requires Tied(dialer, listener, s) && Performs(s, act, listener, s')
    ensures Tied(dialer, listener, s')
  {
    match act
    case Network(m) => NetworkKeeps(dialer, listener, s, m);
    case Accept =>
    case Poll(a) => PollKeeps(dialer, listener, s, a, s');
  }

  lemma {:induction false} RunsTied(dialer: Bytes, listener: Bytes, acts: seq<Act>, s: Session)
    requires |dialer| < Wire.USIZE && |listener| < Wire.USIZE && Runs(dialer, listener, acts, s)
    ensures Tied(dialer, listener, s)
    decreases |acts|
  {
    if acts != [] {
      var last := |acts| - 1;
      var r: Session :| Runs(dialer, listener, acts[..last], r) && Performs(r, acts[last], listener, s);
      RunsTied(dialer, listener, acts[..last], r);
      PerformsKeeps(dialer, listener, r, acts[last], s);
    }
  }

  /** A turn of the poll loop that touches the wire is never refused by it. */
  lemma WireIsReady(dialer: Bytes, listener: Bytes, acts: seq<Act>, s: Session, a: Answer)
    requires |dialer| < Wire.USIZE && |listener| < Wire.USIZE && Runs(dialer, listener, acts, s) && Can(s, Poll(a))
    ensures OnWire(s, a).Some? ==> Wire.Enabled(s.pair, OnWire(s, a).value)
  {
    RunsTied(dialer, listener, acts, s);
  }

  /**
   Over every session: the frames the substream hands out are the first of the messages the dialer
   sent, in order; the handshake the dialer ends with is the one the substream started to send; and
   when the substream has left `Flush`, every byte of it is with the network.
   */
  lemma HistoryIsTheWire(dialer: Bytes, listener: Bytes, acts: seq<Act>, s: Session)
    requires |dialer| < Wire.USIZE && |listener| < Wire.USIZE && Runs(dialer, listener, acts, s)
    ensures FramesIn(s.sub.log) <= s.pair.notifications
    ensures Wire.Reading(s.pair.dialerRead).Received? ==>
              s.sub.log != [] && s.sub.log[0] == SendStarted(Wire.Reading(s.pair.dialerRead).handshake)
    ensures Rank(s.sub.phase) >= 3 ==> s.pair.dialerRead + s.pair.toDialer == Wire.Frame(listener)
  {
    RunsTied(dialer, listener, acts, s);
    Wire.WantsMore(listener, s.pair.dialerRead);
    if Rank(s.sub.phase) >= 3 {
      assert s.pair.toDialer + s.pair.listenerOut == s.pair.toDialer;
    }
  }

  // ---------------------------------------------------------------------------
  // Whole polls of the substream
  // ---------------------------------------------------------------------------

  /** A turn, with what it does to the bytes. */
  function Turned(s: Session, a: Answer): Session {
    var m := OnWire(s, a);
    Session(if m.Some? && Wire.Enabled(s.pair, m.value) then Wire.Apply(s.pair, m.value, Own(s.sub)) else s.pair,
            NextTurn(s.sub, a).sub)
  }

  /** `poll_process` touches the socket only while the handshake is under way. */
  predicate Working(s: Sub, reading: bool) {
    reading || s.phase.Sending? || s.phase.Flush?
  }

  /** In a poll from loop turn `k` on, reading or only processing, every answer is one the bytes allow. */
  ghost predicate Honest(s: Session, env: nat -> Answer, k: nat, reading: bool)
    decreases 5 - Rank(s.sub.phase)
  {
    Working(s.sub, reading) ==>
      && Can(s, Poll(env(k)))
      && (NextTurn(s.sub, env(k)).Again? ==> Honest(Turned(s, env(k)), env, k + 1, reading))
  }

  function Polled(s: Session, env: nat -> Answer, k: nat, reading: bool): Session
    decreases 5 - Rank(s.sub.phase)
  {
    if !Working(s.sub, reading) then s
    else if NextTurn(s.sub, env(k)).Again? then Polled(Turned(s, env(k)), env, k + 1, reading)
    else Turned(s, env(k))
  }

  ghost predicate Reached(dialer: Bytes, listener: Bytes, s: Session) {
    exists acts :: Runs(dialer, listener, acts, s)
  }

  lemma ReachedOn(dialer: Bytes, listener: Bytes, s: Session, act: Act, s': Session)
    requires Reached(dialer, listener, s) && Performs(s, act, listener, s')
    ensures Reached(dialer, listener, s')
  {
    var acts :| Runs(dialer, listener, acts, s);
    var more := acts + [act];
    assert more[..|acts|] == acts;
    assert Runs(dialer, listener, more[..|more| - 1], s);
    assert Runs(dialer, listener, more, s');
  }

  lemma TurnReached(dialer: Bytes, listener: Bytes, s: Session, a: Answer)
    requires |dialer| < Wire.USIZE && |listener| < Wire.USIZE
    requires Reached(dialer, listener, s) && Can(s, Poll(a))
    ensures Reached(dialer, listener, Turned(s, a)) && Turned(s, a).pair.listenerRead == s.pair.listenerRead
  {
    var acts :| Runs(dialer, listener, acts, s);
    WireIsReady(dialer, listener, acts, s, a);
    ReachedOn(dialer, listener, s, Poll(a), Turned(s, a));
    RunsTied(dialer, listener, acts, s);
    if OnWire(s, a).Some? {
      WireKeeps(dialer, listener, s, OnWire(s, a).value);
    }
  }

  /** A whole poll of the substream is a stretch of the session, at whose end the substream is what the poll leaves. */
  lemma {:induction false} PollReached(
    dialer: Bytes, listener: Bytes, s: Session, env: nat -> Answer, k: nat, reading: bool)
    requires |dialer| < Wire.USIZE && |listener| < Wire.USIZE
    requires Reached(dialer, listener, s) && Honest(s, env, k, reading)
    ensures Reached(dialer, listener, Polled(s, env, k, reading))
    ensures Polled(s, env, k, reading).pair.listenerRead == s.pair.listenerRead
    ensures Polled(s, env, k, reading).sub == if reading then Next(s.sub, env, k).0 else Process(s.sub, env, k).0
    decreases 5 - Rank(s.sub.phase)
  {
    if Working(s.sub, reading) {
      TurnReached(dialer, listener, s, env(k));
      if NextTurn(s.sub, env(k)).Again? {
        PollReached(dialer, listener, Turned(s, env(k)), env, k + 1, reading);
      }
    }
  }
}
