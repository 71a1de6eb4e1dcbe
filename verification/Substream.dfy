/**
 The inbound half of a notification substream: a six-phase machine that sends the
 local handshake back to the remote and only then yields data frames.
 Model of `HandshakeInboundSubstream` in notifications/upgrades/handshake.rs.
 */
module Substream {
  import opened Wrappers

  datatype Phase =
    | Waiting
    | Sending(handshake: Bytes)
    | Flush
    | Done
    | NeedsClose
    | FullyClosed

  /** What the framed socket answers to a read. */
  datatype NextAnswer = NextPending | NextEnd | NextFrame(frame: Bytes) | NextError

  /** What the socket would answer to each operation, at one turn of a poll loop. */
  datatype Answer = Answer(ready: PollUnit, sendOk: bool, flush: PollUnit, next: NextAnswer, close: PollUnit)

  /** The operations that took effect on the socket, in order. */
  datatype Io =
    | SendStarted(sent: Bytes)
    | SendRefused
    | FlushDone
    | FrameIn(frame: Bytes)
    | EndIn
    | CloseDone
    | IoFailed

  /** A substream as a value: the `state` field and the history of its socket. */
  datatype Sub = Sub(phase: Phase, log: seq<Io>)

  /** A substream as `upgrade_inbound` creates it. */
  const FRESH: Sub := Sub(Waiting, [])

  datatype ProcessResult = ProcessPending | ProcessError

  datatype NextResult = StreamPending | StreamEnd | StreamItem(frame: Bytes) | StreamError

  /** One turn of a poll loop either goes round again or returns. */
  datatype Turn<R> = Again(sub: Sub) | Stop(sub: Sub, result: R)

  /** Position of a phase in the life of a substream. */
  function Rank(p: Phase): (r: nat)
    ensures r <= 5
  {
    match p
    case Waiting => 0
    case Sending(_) => 1
    case Flush => 2
    case Done => 3
    case NeedsClose => 4
    case FullyClosed => 5
  }

  function WithHandshake(s: Sub, handshake: Bytes): Sub {
    if s.phase.Waiting? then s.(phase := Sending(handshake)) else s
  }

  function ProcessTurn(s: Sub, a: Answer): (t: Turn<ProcessResult>)
    ensures t.Again? ==> Rank(s.phase) < Rank(t.sub.phase)
  {
    match s.phase
    case Sending(h) =>
      if a.ready.Pending? then Stop(s, ProcessPending)
      else if a.sendOk then Again(Sub(Flush, s.log + [SendStarted(h)]))
      else Stop(Sub(Flush, s.log + [SendRefused]), ProcessError)
    case Flush =>
      (match a.flush
       case Pending => Stop(s, ProcessPending)
       case ReadyOk => Again(Sub(Done, s.log + [FlushDone]))
       case ReadyErr => Stop(Sub(Done, s.log + [IoFailed]), ProcessError))
    case _ => Stop(s, ProcessPending)
  }

  function NextTurn(s: Sub, a: Answer): (t: Turn<NextResult>)
    ensures t.Again? ==> Rank(s.phase) < Rank(t.sub.phase)
  {
    match s.phase
    case Waiting => Stop(s, StreamPending)
    case Sending(h) =>
      if a.ready.Pending? then Stop(s, StreamPending)
      else if a.sendOk then Again(Sub(Flush, s.log + [SendStarted(h)]))
      else Stop(Sub(Flush, s.log + [SendRefused]), StreamError)
    case Flush =>
      (match a.flush
       case Pending => Stop(s, StreamPending)
       case ReadyOk => Again(Sub(Done, s.log + [FlushDone]))
       case ReadyErr => Stop(Sub(Done, s.log + [IoFailed]), StreamError))
    case Done =>
      (match a.next
       case NextPending => Stop(s, StreamPending)
       case NextEnd => Again(Sub(NeedsClose, s.log + [EndIn]))
       case NextFrame(f) => Stop(Sub(Done, s.log + [FrameIn(f)]), StreamItem(f))
       case NextError => Stop(Sub(Done, s.log + [IoFailed]), StreamError))
    case NeedsClose =>
      (match a.close
       case Pending => Stop(s, StreamPending)
       case ReadyOk => Again(Sub(FullyClosed, s.log + [CloseDone]))
       case ReadyErr => Stop(Sub(Done, s.log + [IoFailed]), StreamError))
    case FullyClosed => Stop(Sub(Done, s.log), StreamEnd)
  }

  /** `poll_process` from loop turn `k` on; `env(k)` is the socket at turn `k`. */
  function Process(s: Sub, env: nat -> Answer, k: nat): (Sub, ProcessResult)
    decreases 5 - Rank(s.phase)
  {
    match ProcessTurn(s, env(k))
    case Again(t) => Process(t, env, k + 1)
    case Stop(t, r) => (t, r)
  }

  /** `poll_next` from loop turn `k` on. */
  function Next(s: Sub, env: nat -> Answer, k: nat): (Sub, NextResult)
    decreases 5 - Rank(s.phase)
  {
    match NextTurn(s, env(k))
    case Again(t) => Next(t, env, k + 1)
    case Stop(t, r) => (t, r)
  }

  /** A result after which the handler still holds the substream. */
  predicate Held(r: NextResult) {
    r.StreamPending? || r.StreamItem?
  }

  // ---------------------------------------------------------------------------
  // The socket history of every substream that is still held
  // ---------------------------------------------------------------------------

  /** The first `n` operations: the handshake `h` started once and first, flushed right after, then data frames only. */
  ghost predicate Answered(log: seq<Io>, n: int, h: Bytes) {
    && 2 <= n <= |log|
    && log[0] == SendStarted(h)
    && log[1] == FlushDone
    && forall j :: 2 <= j < n ==> log[j].FrameIn?
  }

  /** What the phase says about the socket history of a substream answering with `h`. */
  ghost predicate WellPhased(s: Sub, h: Bytes) {
    var n := |s.log|;
    match s.phase
    case Waiting => s.log == []
    case Sending(g) => g == h && s.log == []
    case Flush => s.log == [SendStarted(h)]
    case Done => Answered(s.log, n, h)
    case NeedsClose => Answered(s.log, n - 1, h) && s.log[n - 1] == EndIn
    case FullyClosed => Answered(s.log, n - 2, h) && s.log[n - 2] == EndIn && s.log[n - 1] == CloseDone
  }

  /** `poll_next` keeps the history well phased and never moves a held substream back. */
  lemma {:induction false} NextKeepsPhase(s: Sub, env: nat -> Answer, k: nat, h: Bytes)
    requires WellPhased(s, h)
    ensures var (t, r) := Next(s, env, k);
            Held(r) ==>
              && WellPhased(t, h)
              && Rank(s.phase) <= Rank(t.phase)
              && s.log <= t.log
              && !t.phase.FullyClosed?
              && (t.phase.Waiting? ==> s.phase.Waiting?)
              && (r.StreamItem? ==> t.phase.Done? && t.log[|t.log| - 1] == FrameIn(r.frame))
    decreases 5 - Rank(s.phase)
  {
    var turn := NextTurn(s, env(k));
    if turn.Again? {
      assert WellPhased(turn.sub, h);
      NextKeepsPhase(turn.sub, env, k + 1, h);
    }
  }

  /** `poll_process` stops at `Done`, never reads data, and leaves a `Waiting` substream alone. */
  lemma {:induction false} ProcessKeepsPhase(s: Sub, env: nat -> Answer, k: nat, h: Bytes)
    requires WellPhased(s, h)
    ensures Process(s, env, k).1.ProcessPending? ==>
              && WellPhased(Process(s, env, k).0, h)
              && Rank(s.phase) <= Rank(Process(s, env, k).0.phase)
              && s.log <= Process(s, env, k).0.log
              && (Rank(s.phase) <= 3 ==> Rank(Process(s, env, k).0.phase) <= 3)
              && (Process(s, env, k).0.phase.Waiting? <==> s.phase.Waiting?)
    ensures s.phase.Waiting? ==> Process(s, env, k) == (s, ProcessPending)
    decreases 5 - Rank(s.phase)
  {
    if ProcessTurn(s, env(k)).Again? {
      ProcessKeepsPhase(ProcessTurn(s, env(k)).sub, env, k + 1, h);
    }
  }

  /**
   Why the handler must drop a substream after `None` or an error: the field is left in `Done`
   (or in `Flush`), which goes back in rank and no longer describes the socket.
   */
  lemma DroppedSubstreamIsNotWellPhased(s: Sub, env: nat -> Answer, k: nat, h: Bytes)
    requires WellPhased(s, h) && !Held(Next(s, env, k).1)
    ensures !WellPhased(Next(s, env, k).0, h)
    ensures Next(s, env, k).1.StreamEnd? ==> Next(s, env, k).0.phase.Done?
    decreases 5 - Rank(s.phase)
  {
    var t := NextTurn(s, env(k));
    if t.Again? {
      assert WellPhased(t.sub, h);
      DroppedSubstreamIsNotWellPhased(t.sub, env, k + 1, h);
    } else {
      assert !t.sub.log[|t.sub.log| - 1].FrameIn?;
    }
  }

  // ---------------------------------------------------------------------------
  // What a substream hands out, and that it gets on
  // ---------------------------------------------------------------------------

  /** The frames a substream handed out. */
  function FramesIn(log: seq<Io>): seq<Bytes> {
    if log == [] then []
    else if log[|log| - 1].FrameIn? then FramesIn(log[..|log| - 1]) + [log[|log| - 1].frame]
    else FramesIn(log[..|log| - 1])
  }

  lemma FramesInPush(log: seq<Io>, op: Io)
    ensures FramesIn(log + [op]) == if op.FrameIn? then FramesIn(log) + [op.frame] else FramesIn(log)
  {
    assert (log + [op])[..|log|] == log;
  }

  /** How a poll ends: a frame goes out exactly if the history grew by it, and then only by it among frames. */
  lemma {:induction false} NextHandsOut(s: Sub, env: nat -> Answer, k: nat)
    ensures var (t, r) := Next(s, env, k);
            FramesIn(t.log) == if r.StreamItem? then FramesIn(s.log) + [r.frame] else FramesIn(s.log)
    decreases 5 - Rank(s.phase)
  {
    var turn := NextTurn(s, env(k));
    TurnHandsOut(s, env(k));
    if turn.Again? {
      NextHandsOut(turn.sub, env, k + 1);
    }
  }

  lemma TurnHandsOut(s: Sub, a: Answer)
    ensures var t := NextTurn(s, a);
            FramesIn(t.sub.log) ==
            if t.Stop? && t.result.StreamItem? then FramesIn(s.log) + [t.result.frame] else FramesIn(s.log)
  {
    match s.phase
    case Waiting =>
    case Sending(h) =>
      FramesInPush(s.log, SendStarted(h));
      FramesInPush(s.log, SendRefused);
    case Flush =>
      FramesInPush(s.log, FlushDone);
      FramesInPush(s.log, IoFailed);
    case Done =>
      FramesInPush(s.log, EndIn);
      FramesInPush(s.log, IoFailed);
      if a.next.NextFrame? { FramesInPush(s.log, FrameIn(a.next.frame)); }
    case NeedsClose =>
      FramesInPush(s.log, CloseDone);
      FramesInPush(s.log, IoFailed);
    case FullyClosed =>
  }

  /** Processing hands out nothing. */
  lemma {:induction false} ProcessHandsOutNothing(s: Sub, env: nat -> Answer, k: nat)
    ensures FramesIn(Process(s, env, k).0.log) == FramesIn(s.log)
    decreases 5 - Rank(s.phase)
  {
    match s.phase
    case Sending(h) =>
      FramesInPush(s.log, SendStarted(h));
      FramesInPush(s.log, SendRefused);
      if !env(k).ready.Pending? && env(k).sendOk {
        ProcessHandsOutNothing(Sub(Flush, s.log + [SendStarted(h)]), env, k + 1);
      }
    case Flush =>
      FramesInPush(s.log, FlushDone);
      FramesInPush(s.log, IoFailed);
      if env(k).flush.ReadyOk? {
        ProcessHandsOutNothing(Sub(Done, s.log + [FlushDone]), env, k + 1);
      }
    case _ =>
  }

  /** A ready socket gets the handshake, whichever of the two loops polls it. */
  lemma ReadySocketGetsHandshake(s: Sub, env: nat -> Answer, h: Bytes)
    requires WellPhased(s, h) && s.phase.Sending? && !env(0).ready.Pending? && env(0).sendOk
    ensures |Process(s, env, 0).0.log| > 0 && Process(s, env, 0).0.log[0] == SendStarted(h)
    ensures |Next(s, env, 0).0.log| > 0 && Next(s, env, 0).0.log[0] == SendStarted(h)
  {
    var t := Sub(Flush, s.log + [SendStarted(h)]);
    assert ProcessTurn(s, env(0)) == Again(t) && NextTurn(s, env(0)) == Again(t);
    LogsGrow(t, env, 1);
  }

  lemma {:induction false} LogsGrow(s: Sub, env: nat -> Answer, k: nat)
    ensures s.log <= Process(s, env, k).0.log && s.log <= Next(s, env, k).0.log
    decreases 5 - Rank(s.phase)
  {
    var p, n := ProcessTurn(s, env(k)), NextTurn(s, env(k));
    if p.Again? { LogsGrow(p.sub, env, k + 1); }
    if n.Again? { LogsGrow(n.sub, env, k + 1); }
  }

  /** With nothing in its way a substream answers, flushes and then waits for frames. */
  lemma WillingSocketOpens(s: Sub, env: nat -> Answer, h: Bytes)
    requires WellPhased(s, h) && s.phase.Sending? && !env(0).ready.Pending? && env(0).sendOk && env(1).flush.ReadyOk?
    ensures Process(s, env, 0) == (Sub(Done, [SendStarted(h), FlushDone]), ProcessPending)
  {
    var t, u := Sub(Flush, [SendStarted(h)]), Sub(Done, [SendStarted(h), FlushDone]);
    assert s.log + [SendStarted(h)] == t.log && t.log + [FlushDone] == u.log;
    assert ProcessTurn(s, env(0)) == Again(t);
    assert ProcessTurn(t, env(1)) == Again(u);
    assert Process(u, env, 2) == (u, ProcessPending);
    assert Process(t, env, 1) == Process(u, env, 2);
  }

  /**
   What an open substream makes of each answer to a read: a frame goes out, an end closes the
   socket and then ends.
   */
  lemma ReadOutcomes(s: Sub, env: nat -> Answer)
    requires s.phase.Done?
    ensures env(0).next.NextPending? ==> Next(s, env, 0) == (s, StreamPending)
    ensures env(0).next.NextFrame? ==> Next(s, env, 0).1 == StreamItem(env(0).next.frame)
    ensures env(0).next.NextEnd? && env(1).close.Pending? ==>
              Next(s, env, 0) == (Sub(NeedsClose, s.log + [EndIn]), StreamPending)
    ensures env(0).next.NextEnd? && env(1).close.ReadyOk? ==> Next(s, env, 0).1 == StreamEnd
    ensures env(0).next.NextError? || (env(0).next.NextEnd? && env(1).close.ReadyErr?) ==>
              Next(s, env, 0).1 == StreamError
  {
    if env(0).next.NextEnd? {
      var t := Sub(NeedsClose, s.log + [EndIn]);
      assert NextTurn(s, env(0)) == Again(t);
      if env(1).close.ReadyOk? {
        var u := Sub(FullyClosed, t.log + [CloseDone]);
        assert NextTurn(t, env(1)) == Again(u);
        assert Next(u, env, 2).1 == StreamEnd;
        assert Next(t, env, 1) == Next(u, env, 2);
      }
    }
  }

  /** While the handshake is under way a failing socket ends either poll with an error, and a busy one lets it wait. */
  lemma HandshakeOutcomes(s: Sub, env: nat -> Answer)
    requires s.phase.Sending? || s.phase.Flush?
    ensures var busy, failing := if s.phase.Flush? then env(0).flush.Pending? else env(0).ready.Pending?,
                                 if s.phase.Flush? then env(0).flush.ReadyErr?
                                 else !env(0).ready.Pending? && !env(0).sendOk;
            && (busy ==> Next(s, env, 0) == (s, StreamPending) && Process(s, env, 0) == (s, ProcessPending))
            && (failing ==> Next(s, env, 0).1.StreamError? && Process(s, env, 0).1.ProcessError?)
  {
  }

  /** A substream on its way out: closed, it ends; until then it waits, and a failing close is an error. */
  lemma ClosingOutcomes(s: Sub, env: nat -> Answer)
    requires s.phase.NeedsClose?
    ensures env(0).close.Pending? ==> Next(s, env, 0) == (s, StreamPending)
    ensures env(0).close.ReadyOk? ==> Next(s, env, 0).1.StreamEnd?
    ensures env(0).close.ReadyErr? ==> Next(s, env, 0).1.StreamError?
  {
    if env(0).close.ReadyOk? {
      var t := Sub(FullyClosed, s.log + [CloseDone]);
      assert NextTurn(s, env(0)) == Again(t) && Next(t, env, 1).1.StreamEnd?;
    }
  }

  /** The substream object the handler owns. */
  class InboundSubstream {
    var phase: Phase
    ghost var log: seq<Io>

    ghost function Value(): Sub
      reads this
    {
      Sub(phase, log)
    }

    /** The substream `upgrade_inbound` hands out. */
    constructor ()
      ensures Value() == FRESH
    {
      phase := Waiting;
      log := [];
    }

    method SetHandshake(handshake: Bytes)
      modifies this
      ensures Value() == WithHandshake(old(Value()), handshake)
    {
      if !phase.Waiting? {
        return;
      }
      phase := Sending(handshake);
    }

    method PollProcess(env: nat -> Answer) returns (r: ProcessResult)
      modifies this
      ensures (Value(), r) == Process(old(Value()), env, 0)
    {
      var k: nat := 0;
      while true
        invariant Process(Value(), env, k) == Process(old(Value()), env, 0)
        decreases 5 - Rank(phase)
      {
        // Move the state out; every path that returns early must put one back.
        var state := phase;
        phase := Done;
        match state {
          case Sending(handshake) =>
            if env(k).ready.Pending? {
              phase := Sending(handshake);
              return ProcessPending;
            }
            phase := Flush;
            if !env(k).sendOk {
              log := log + [SendRefused];
              return ProcessError;
            }
            log := log + [SendStarted(handshake)];
          case Flush =>
            match env(k).flush {
              case ReadyErr =>
                log := log + [IoFailed];
                return ProcessError;
              case ReadyOk =>
                log := log + [FlushDone];
                phase := Done;
              case Pending =>
                phase := Flush;
                return ProcessPending;
            }
          case other =>
            phase := other;
            return ProcessPending;
        }
        k := k + 1;
      }
    }

    method PollNext(env: nat -> Answer) returns (r: NextResult)
      modifies this
      ensures (Value(), r) == Next(old(Value()), env, 0)
    {
      var k: nat := 0;
      while true
        invariant Next(Value(), env, k) == Next(old(Value()), env, 0)
        decreases 5 - Rank(phase)
      {
        var state := phase;
        phase := Done;
        match state {
          case Waiting =>
            phase := Waiting;
            return StreamPending;
          case Sending(handshake) =>
            if env(k).ready.Pending? {
              phase := Sending(handshake);
              return StreamPending;
            }
            phase := Flush;
            if !env(k).sendOk {
              log := log + [SendRefused];
              return StreamError;
            }
            log := log + [SendStarted(handshake)];
          case Flush =>
            match env(k).flush {
              case ReadyErr =>
                log := log + [IoFailed];
                return StreamError;
              case ReadyOk =>
                log := log + [FlushDone];
                phase := Done;
              case Pending =>
                phase := Flush;
                return StreamPending;
            }
          case Done =>
            match env(k).next {
              case NextEnd =>
                log := log + [EndIn];
                phase := NeedsClose;
              case NextFrame(frame) =>
                log := log + [FrameIn(frame)];
                phase := Done;
                return StreamItem(frame);
              case NextError =>
                log := log + [IoFailed];
                phase := Done;
                return StreamError;
              case NextPending =>
                phase := Done;
                return StreamPending;
            }
          case NeedsClose =>
            match env(k).close {
              case ReadyErr =>
                log := log + [IoFailed];
                return StreamError;
              case ReadyOk =>
                log := log + [CloseDone];
                phase := FullyClosed;
              case Pending =>
                phase := NeedsClose;
                return StreamPending;
            }
          case FullyClosed =>
            return StreamEnd;
        }
        k := k + 1;
      }
    }
  }
}
