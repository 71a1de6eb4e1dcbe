/**
 What the behaviour hears: the notifications of a protocol are the frames its substreams read, each
 once and in order, over every run of a handler.
 */
module HandlerFrames {
  import opened Wrappers
  import opened Substream
  import opened HandlerModel
  import opened HandlerRuns

  /** The messages of the notifications of protocol `i`, in order. */
  function Notes(es: seq<ToBehaviour>, i: nat): seq<Bytes> {
    if es == [] then []
    else
      var e := es[|es| - 1];
      if e.Notification? && e.index == i then Notes(es[..|es| - 1], i) + [e.bytes] else Notes(es[..|es| - 1], i)
  }

  predicate Holds(st: State<Sub>) {
    HeldSub(st).Some?
  }

  /** The frames that the substream held now has read from its socket. */
  function Frames(st: State<Sub>): seq<Bytes> {
    if Holds(st) then FramesIn(HeldSub(st).value.log) else []
  }

  lemma NotesPush(es: seq<ToBehaviour>, e: ToBehaviour, i: nat)
    ensures Notes(es + [e], i) == if e.Notification? && e.index == i then Notes(es, i) + [e.bytes] else Notes(es, i)
  {
    assert (es + [e])[..|es|] == es;
  }

  // ---------------------------------------------------------------------------
  // One poll
  // ---------------------------------------------------------------------------

  predicate IsNote(event: Option<HandlerEvent>, i: nat) {
    event.Some? && event.value.NotifyBehaviour? && event.value.event.Notification? && event.value.event.index == i
  }

  /** A notification of `i` is the one frame read from the substream of `i`; without one no frame was read. */
  ghost predicate Passes(st: State<Sub>, st': State<Sub>, event: Option<HandlerEvent>, i: nat) {
    && (Holds(st') ==> Holds(st))
    && (IsNote(event, i) ==> Holds(st') && Frames(st') == Frames(st) + [event.value.event.bytes])
    && (!IsNote(event, i) && Holds(st') ==> Frames(st') == Frames(st))
  }

  /** The frame that polling one substream read, if any, is what goes to the behaviour. */
  lemma InboundHandsOut(st: State<Sub>, env: nat -> Answer)
    ensures var (st', outcome) := InboundState(st, env);
            && (Holds(st') ==> Holds(st))
            && (outcome.Received? ==> Holds(st') && Frames(st') == Frames(st) + [outcome.bytes])
            && (!outcome.Received? && Holds(st') ==> Frames(st') == Frames(st))
  {
    match st {
      case StOpen(_, Some(sub), _) => NextHandsOut(sub, env, 0);
      case StDesired(sub, _) => ProcessHandsOutNothing(sub, env, 0);
      case StOpening(Some(sub), _) => ProcessHandsOutNothing(sub, env, 0);
      case _ =>
    }
  }

  /** The protocols before `m` are left alone, and no event is about them. */
  lemma {:induction false} InboundBelow(h: Handler, m: nat, env: PollEnv, i: nat)
    requires i < m <= |h.protocols|
    ensures InboundFrom(h, m, env).0.At(i) == h.At(i) && !IsNote(InboundFrom(h, m, env).1, i)
    decreases |h.protocols| - m
  {
    if m < |h.protocols| {
      InboundBelow(h.With(m, InboundState(h.At(m), env.inbound(m)).0), m + 1, env, i);
    }
  }

  lemma {:induction false} InboundPasses(h: Handler, m: nat, env: PollEnv, i: nat)
    requires m <= i < |h.protocols|
    ensures Passes(h.At(i), InboundFrom(h, m, env).0.At(i), InboundFrom(h, m, env).1, i)
    decreases |h.protocols| - m
  {
    var (st, outcome) := InboundState(h.At(m), env.inbound(m));
    if m == i {
      InboundHandsOut(h.At(m), env.inbound(m));
      InboundBelow(h.With(m, st), m + 1, env, i);
    } else {
      InboundPasses(h.With(m, st), m + 1, env, i);
    }
  }

  /** Sending and flushing leave every inbound substream as it is. */
  lemma {:induction false} DrainHolds(h: Handler, m: nat, env: PollEnv, i: nat)
    requires m <= |h.protocols| && h.Has(i)
    ensures HeldSub(DrainFrom(h, m, env).At(i)) == HeldSub(h.At(i))
    decreases |h.protocols| - m
  {
    if m < |h.protocols| {
      DrainHolds(h.With(m, DrainState(h.At(m), env.ready(m))), m + 1, env, i);
    }
  }

  lemma {:induction false} FlushHolds(h: Handler, m: nat, env: PollEnv, i: nat)
    requires m <= |h.protocols| && h.Has(i)
    ensures HeldSub(FlushFrom(h, m, env).0.At(i)) == HeldSub(h.At(i)) && !IsNote(FlushFrom(h, m, env).1, i)
    decreases |h.protocols| - m
  {
    if m < |h.protocols| {
      FlushHolds(h.With(m, FlushState(h.At(m), env.flush(m)).0), m + 1, env, i);
    }
  }

  /** With nothing queued, a poll reads at most one frame in all, and hands out the frame it reads. */
  lemma PollPasses(h: Handler, env: PollEnv, i: nat)
    requires h.pending == [] && h.Has(i)
    ensures Passes(h.At(i), Poll(h, env).0.At(i), Poll(h, env).1, i)
  {
    var h1 := DrainFrom(h, 0, env);
    DrainHolds(h, 0, env, i);
    FlushHolds(h1, 0, env, i);
    var (h2, event) := FlushFrom(h1, 0, env);
    if event.None? {
      InboundPasses(h2, 0, env, i);
    }
  }

  // ---------------------------------------------------------------------------
  // Every run
  // ---------------------------------------------------------------------------

  ghost predicate HoldsAt(w: World, i: nat) {
    w.handler.Has(i) && Holds(w.handler.At(i))
  }

  ghost function FramesAt(w: World, i: nat): seq<Bytes> {
    if w.handler.Has(i) then Frames(w.handler.At(i)) else []
  }

  /** A step hands out the frame it reads, or reads none; and a substream is taken before it has read any. */
  ghost predicate Delivers(w: World, w': World, i: nat) {
    var ns, ns' := Notes(w.emitted, i), Notes(w'.emitted, i);
    || (exists b :: ns' == ns + [b] && HoldsAt(w, i) && HoldsAt(w', i) && FramesAt(w', i) == FramesAt(w, i) + [b])
    || (ns' == ns && (HoldsAt(w', i) ==> FramesAt(w', i) == FramesAt(w, i)))
  }

  lemma StepDelivers(w: World, a: Action, i: nat)
    requires Inv(w) && Enabled(w, a) && w.handler.Has(i)
    ensures Delivers(w, Step(w, a), i) && Step(w, a).handler.Has(i)
  {
    var w' := Step(w, a);
    if a.PollHandler? {
      if w.handler.pending == [] {
        InvOk(w);
        QuietTells(w, a.env);
        QuietDelivers(w, a.env, i);
      } else if w.handler.pending[0].NotifyBehaviour? {
        NotesPush(w.emitted, w.handler.pending[0].event, i);
        assert !w.handler.pending[0].event.Notification?;
      }
    } else {
      HoldStays(w, a, i);
    }
  }

  lemma QuietDelivers(w: World, env: PollEnv, i: nat)
    requires AllOk(w.handler) && w.handler.pending == [] && w.handler.Has(i)
    ensures Delivers(w, Step(w, PollHandler(env)), i)
  {
    QuietTells(w, env);
    PollPasses(w.handler, env, i);
    var event := Poll(w.handler, env).1;
    if event.Some? {
      NotesPush(w.emitted, event.value.event, i);
    }
  }

  /** Apart from polling, no step reads a frame; a substream taken has read none. */
  lemma HoldStays(w: World, a: Action, i: nat)
    requires Enabled(w, a) && !a.PollHandler? && w.handler.Has(i)
    ensures Step(w, a).emitted == w.emitted && Step(w, a).handler.Has(i)
    ensures HoldsAt(Step(w, a), i) ==> FramesAt(Step(w, a), i) == FramesAt(w, i)
  {
  }

  /** The frames read by the substreams of `i` that are no longer held. */
  ghost function Past(ws: seq<World>, k: nat, i: nat): seq<Bytes>
    requires k < |ws|
  {
    if k == 0 then []
    else if HoldsAt(ws[k - 1], i) && !HoldsAt(ws[k], i) then Past(ws, k - 1, i) + FramesAt(ws[k - 1], i)
    else Past(ws, k - 1, i)
  }

  /**
   In every run, what the behaviour is told protocol `i` received is what its substreams read, one
   substream after the other: no frame is swallowed, invented, repeated or moved.
   */
  lemma {:induction false} NotesAreFrames(ws: seq<World>, acts: seq<Action>, k: nat, i: nat)
    requires Run(ws, acts) && k < |ws| && i < 2
    ensures ws[k].handler.Has(i)
    ensures Notes(ws[k].emitted, i) == Past(ws, k, i) + FramesAt(ws[k], i)
    decreases k
  {
    if k > 0 {
      var j := k - 1;
      NotesAreFrames(ws, acts, j, i);
      RunInv(ws, acts, j);
      assert StepTo(ws[j], acts[j], ws[j + 1]);
      StepDelivers(ws[j], acts[j], i);
      Joins(Past(ws, j, i), ws[j], ws[k], i);
    }
  }

  lemma Joins(past: seq<Bytes>, w: World, w': World, i: nat)
    requires Delivers(w, w', i) && Notes(w.emitted, i) == past + FramesAt(w, i)
    ensures Notes(w'.emitted, i) ==
            (if HoldsAt(w, i) && !HoldsAt(w', i) then past + FramesAt(w, i) else past) + FramesAt(w', i)
  {
    var ns, ns' := Notes(w.emitted, i), Notes(w'.emitted, i);
    if ns' != ns {
      var b :| ns' == ns + [b] && HoldsAt(w, i) && HoldsAt(w', i) && FramesAt(w', i) == FramesAt(w, i) + [b];
      assert past + (FramesAt(w, i) + [b]) == (past + FramesAt(w, i)) + [b];
    } else if !HoldsAt(w', i) {
      assert FramesAt(w', i) == [];
    }
  }

  /** Since the substream held now was taken, the behaviour was told exactly the frames that it read. */
  lemma {:induction false} NotesSinceTaken(ws: seq<World>, acts: seq<Action>, j: nat, k: nat, i: nat)
    requires Run(ws, acts) && j < k < |ws| && i < 2 && !HoldsAt(ws[j], i)
    requires forall m :: j < m <= k ==> HoldsAt(ws[m], i)
    ensures HoldsAt(ws[k], i)
    ensures Notes(ws[k].emitted, i) == Notes(ws[j].emitted, i) + FramesIn(HeldSub(ws[k].handler.At(i)).value.log)
  {
    NotesAreFrames(ws, acts, j, i);
    NotesAreFrames(ws, acts, k, i);
    PastStays(ws, j, k, i);
    assert Past(ws, j, i) + FramesAt(ws[j], i) == Past(ws, j, i);
    assert HoldsAt(ws[k], i);
  }

  lemma {:induction false} PastStays(ws: seq<World>, j: nat, k: nat, i: nat)
    requires j <= k < |ws| && !HoldsAt(ws[j], i) && forall m :: j < m <= k ==> HoldsAt(ws[m], i)
    ensures Past(ws, k, i) == Past(ws, j, i)
    decreases k
  {
    if j < k {
      PastStays(ws, j, k - 1, i);
    }
  }

  // ---------------------------------------------------------------------------
  // When a substream is taken, and when it is lost
  // ---------------------------------------------------------------------------

  /** A substream offered by the remote is taken, unless one is held already, which then stays. */
  lemma OfferedIsHeld(w: World, i: nat)
    requires w.handler.Has(i)
    ensures HoldsAt(Step(w, Inbound(i)), i)
    ensures HoldsAt(w, i) ==> Step(w, Inbound(i)).handler.At(i) == w.handler.At(i)
  {
  }

  /** The poll of its own substream ended it. */
  predicate Ended(st: State<Sub>, env: nat -> Answer) {
    match st
    case StOpen(_, Some(sub), _) => Next(sub, env, 0).1.StreamEnd? || Next(sub, env, 0).1.StreamError?
    case StOpening(Some(sub), _) => Process(sub, env, 0).1.ProcessError?
    case StDesired(sub, _) => Process(sub, env, 0).1.ProcessError?
    case _ => false
  }

  lemma {:induction false} InboundKeeps(h: Handler, m: nat, env: PollEnv, i: nat)
    requires m <= i < |h.protocols| && Holds(h.At(i)) && !Ended(h.At(i), env.inbound(i))
    ensures Holds(InboundFrom(h, m, env).0.At(i))
    decreases |h.protocols| - m
  {
    var st := InboundState(h.At(m), env.inbound(m)).0;
    if m == i {
      InboundBelow(h.With(m, st), m + 1, env, i);
    } else {
      InboundKeeps(h.With(m, st), m + 1, env, i);
    }
  }

  /** Sending and flushing do not change how the poll of a substream ends. */
  lemma EndedBySub(st: State<Sub>, st': State<Sub>, env: nat -> Answer)
    requires HeldSub(st') == HeldSub(st) && (st'.StOpen? <==> st.StOpen?)
    ensures Ended(st', env) == Ended(st, env)
  {
  }

  /**
   A substream is lost only by closing its protocol, by the failure of the opening it belongs to, or
   by a poll of it that ended or failed.
   */
  lemma LostOnlyWhenEnded(w: World, a: Action, i: nat)
    requires Inv(w) && Enabled(w, a) && HoldsAt(w, i) && !HoldsAt(Step(w, a), i)
    ensures a == Message(Close(i))
         || (a == DialFailed(i) && w.handler.At(i).StOpening?)
         || (a.PollHandler? && w.handler.pending == [] && Ended(w.handler.At(i), a.env.inbound(i)))
  {
    if a.PollHandler? && w.handler.pending == [] && !Ended(w.handler.At(i), a.env.inbound(i)) {
      var h, env := w.handler, a.env;
      InvOk(w);
      DrainFromOk(h, 0, env);
      var h1 := DrainFrom(h, 0, env);
      DrainHolds(h, 0, env, i);
      EndedBySub(h.At(i), h1.At(i), env.inbound(i));
      FlushFromOk(h1, 0, env);
      FlushHolds(h1, 0, env, i);
      var (h2, event) := FlushFrom(h1, 0, env);
      EndedBySub(h1.At(i), h2.At(i), env.inbound(i));
      if event.None? {
        InboundKeeps(h2, 0, env, i);
      }
      QuietTells(w, env);
      assert false;
    }
  }
}
