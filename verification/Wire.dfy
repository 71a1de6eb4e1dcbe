/**
 The handshake on the wire: a length in unsigned LEB128 (section 7.6 of DWARF 5, multiformats
 unsigned-varint) and the bytes. Model of `upgrade_inbound` and `upgrade_outbound` in
 notifications/upgrades/handshake.rs, over sockets that deliver bytes in arbitrary pieces.
 */
module Wire {
  import opened Wrappers

  const MAX_HANDSHAKE_SIZE: nat := 1024
  const MAX_VARINT: nat := 10
  const USIZE: nat := 0x1_0000_0000_0000_0000

  datatype HandshakeError = Io | UnexpectedEof | Overflow | NotMinimal | TooLarge(requested: nat)

  /** Unsigned LEB128. */
  function Leb(n: nat): (b: Bytes)
    ensures |b| >= 1
  {
    if n < 128 then [n as byte] else [(n % 128 + 128) as byte] + Leb(n / 128)
  }

  function LebValue(b: Bytes): nat {
    if b == [] then 0 else b[0] as nat % 128 + 128 * LebValue(b[1..])
  }

  predicate IsLast(b: byte) { b < 128 }

  /** A length-prefixed message. */
  function Frame(message: Bytes): Bytes {
    Leb(|message|) + message
  }

  /** How many bytes the varint at the head takes: up to and with the first byte below 128. */
  function VarintSize(b: Bytes): (size: Option<nat>)
    ensures size.Some? ==> 1 <= size.value <= |b|
  {
    if b == [] then None
    else if IsLast(b[0]) then Some(1)
    else
      var rest := VarintSize(b[1..]);
      if rest.Some? then Some(rest.value + 1) else None
  }

  /** The length those bytes stand for; the tenth byte is cut to 64 bits, a trailing zero is refused. */
  function Length(b: Bytes): Result<nat, HandshakeError>
    requires b != []
  {
    if |b| > 1 && b[|b| - 1] == 0 then Err(NotMinimal) else Ok(LebValue(b) % USIZE)
  }

  datatype Progress = More | Received(handshake: Bytes) | Refused(error: HandshakeError)

  /** Where a reader of a handshake stands after consuming these bytes, one at a time. */
  function Reading(consumed: Bytes): Progress {
    var size := VarintSize(consumed);
    if size.None? then (if |consumed| < MAX_VARINT then More else Refused(Overflow))
    else if size.value > MAX_VARINT then Refused(Overflow)
    else
      match Length(consumed[..size.value])
      case Err(e) => Refused(e)
      case Ok(n) =>
        if n > MAX_HANDSHAKE_SIZE then Refused(TooLarge(n))
        else if |consumed| - size.value < n then More
        else Received(consumed[size.value..size.value + n])
  }

  // ---------------------------------------------------------------------------
  // Varints
  // ---------------------------------------------------------------------------

  lemma {:induction false} LebShape(n: nat, rest: Bytes)
    ensures LebValue(Leb(n)) == n
    ensures VarintSize(Leb(n) + rest) == Some(|Leb(n)|)
    ensures |Leb(n)| > 1 ==> Leb(n)[|Leb(n)| - 1] != 0
    ensures n > 0 ==> Leb(n)[|Leb(n)| - 1] != 0
    decreases n
  {
    var b := Leb(n);
    if n >= 128 {
      LebShape(n / 128, rest);
      assert b[1..] == Leb(n / 128);
      assert (b + rest)[1..] == Leb(n / 128) + rest;
    } else {
      assert b[1..] == [];
    }
  }

  function Pow128(k: nat): nat {
    if k == 0 then 1 else 128 * Pow128(k - 1)
  }

  lemma {:induction false} LebLength(n: nat, k: nat)
    requires k > 0 && n < Pow128(k)
    ensures |Leb(n)| <= k
    decreases k
  {
    if n >= 128 {
      assert Pow128(1) == 128 * Pow128(0);
      LebLength(n / 128, k - 1);
    }
  }

  lemma UsizeFits(n: nat)
    requires n < USIZE
    ensures |Leb(n)| <= MAX_VARINT
  {
    assert Pow128(3) == 0x20_0000;
    assert Pow128(6) == 0x400_0000_0000;
    assert Pow128(9) == 0x8000_0000_0000_0000;
    assert Pow128(10) >= USIZE;
    LebLength(n, 10);
  }

  /** A proper prefix of a varint does not end it. */
  lemma {:induction false} PartialVarint(n: nat, k: nat)
    requires k < |Leb(n)|
    ensures VarintSize(Leb(n)[..k]) == None
    decreases n
  {
    if k > 0 {
      assert n >= 128;
      assert Leb(n)[..k][1..] == Leb(n / 128)[..k - 1];
      PartialVarint(n / 128, k - 1);
    }
  }

  lemma LengthOfLeb(n: nat)
    requires n < USIZE
    ensures Length(Leb(n)) == Ok(n)
  {
    LebShape(n, []);
  }

  /** How a reader of a framed handshake progresses: it decides at one point, and not before. */
  lemma ReadingFrame(h: Bytes, k: nat)
    requires |h| < USIZE && k <= |Frame(h)|
    ensures Reading(Frame(h)[..k]) ==
            if k < |Leb(|h|)| then More
            else if |h| > MAX_HANDSHAKE_SIZE then Refused(TooLarge(|h|))
            else if k < |Frame(h)| then More else Received(h)
  {
    var head := Leb(|h|);
    UsizeFits(|h|);
    if k < |head| {
      PartialVarint(|h|, k);
      assert Frame(h)[..k] == head[..k];
    } else {
      assert Frame(h)[..k] == head + h[..k - |head|];
      ReadingBody(h, k - |head|);
    }
  }

  lemma ReadingBody(h: Bytes, k: nat)
    requires |h| < USIZE && k <= |h| && |Leb(|h|)| <= MAX_VARINT
    ensures Reading(Leb(|h|) + h[..k]) ==
            if |h| > MAX_HANDSHAKE_SIZE then Refused(TooLarge(|h|))
            else if k < |h| then More else Received(h)
  {
    var head, n := Leb(|h|), |h|;
    var read := head + h[..k];
    LebShape(n, h[..k]);
    LebShape(n, []);
    assert head + [] == head;
    LengthOfLeb(n);
    assert read[..|head|] == head && read[..|read|] == read;
    if n <= MAX_HANDSHAKE_SIZE {
      AfterHead(read, |head|, n, |read|);
      if k == n { assert read[|head|..|read|] == h; }
    }
  }

  /** Reading depends on nothing past the bytes that decide it. */
  lemma {:induction false} VarintHead(b: Bytes, more: Bytes)
    requires VarintSize(b).Some?
    ensures VarintSize(b + more) == VarintSize(b)
  {
    if !IsLast(b[0]) {
      assert (b + more)[1..] == b[1..] + more;
      VarintHead(b[1..], more);
    }
  }

  /** Nothing is decided while the varint is open. */
  lemma OpenHead(all: Bytes, head: nat, k: nat)
    requires k < head <= |all| && head <= MAX_VARINT
    requires VarintSize(all[..head]) == None || VarintSize(all[..head]) == Some(head)
    ensures Reading(all[..k]) == More
  {
    if VarintSize(all[..k]).Some? {
      assert all[..head] == all[..k] + all[k..head];
      VarintHead(all[..k], all[k..head]);
    }
  }

  /** A complete varint decides when its length is malformed or too large. */
  lemma AtHead(varint: Bytes)
    requires VarintSize(varint) == Some(|varint|) && |varint| <= MAX_VARINT
    ensures match Length(varint)
            case Err(e) => Reading(varint) == Refused(e)
            case Ok(n) => n > MAX_HANDSHAKE_SIZE ==> Reading(varint) == Refused(TooLarge(n))
  {
    assert varint[..|varint|] == varint;
  }

  /** After the varint, the reader waits for as many bytes as it says. */
  lemma AfterHead(all: Bytes, head: nat, n: nat, k: nat)
    requires head <= k <= |all| && head <= MAX_VARINT && n <= MAX_HANDSHAKE_SIZE
    requires VarintSize(all[..head]) == Some(head) && Length(all[..head]) == Ok(n)
    ensures k < head + n ==> Reading(all[..k]) == More
    ensures k == head + n ==> Reading(all[..k]) == Received(all[head..k])
  {
    var read := all[..k];
    assert read == all[..head] + all[head..k];
    VarintHead(all[..head], all[head..k]);
    assert read[..head] == all[..head];
    if k == head + n { assert read[head..head + n] == all[head..k]; }
  }

  // ---------------------------------------------------------------------------
  // A socket that delivers bytes in pieces
  // ---------------------------------------------------------------------------

  function Flatten(pieces: seq<Bytes>): Bytes {
    if pieces == [] then [] else pieces[0] + Flatten(pieces[1..])
  }

  /**
   The outcome of reading a handshake from `all`, with `ending` the error met when the bytes run
   out: it is what `Reading` says at the first point where it says anything but `More`, and
   nothing past that point has been taken.
   */
  ghost predicate Decides(all: Bytes, taken: nat, r: Result<Bytes, HandshakeError>, ending: HandshakeError) {
    && taken <= |all|
    && (forall k :: 0 <= k < taken ==> Reading(all[..k]) == More)
    && match Reading(all[..taken])
       case More => taken == |all| && r == Err(ending)
       case Received(h) => r == Ok(h)
       case Refused(e) => r == Err(e)
  }

  /** For a framed handshake: the handshake itself, or the refusal of one over 1024 bytes. */
  lemma DecidesFrame(h: Bytes, rest: Bytes, taken: nat, r: Result<Bytes, HandshakeError>, ending: HandshakeError)
    requires |h| < USIZE && Decides(Frame(h) + rest, taken, r, ending)
    ensures |h| <= MAX_HANDSHAKE_SIZE ==> r == Ok(h) && (Frame(h) + rest)[taken..] == rest
    ensures |h| > MAX_HANDSHAKE_SIZE ==> r == Err(TooLarge(|h|)) && (Frame(h) + rest)[taken..] == h + rest
  {
    ReadWhole(h, rest, Frame(h) + rest, taken);
  }

  class Socket {
    /** What the network will deliver, piece by piece; afterwards end of stream, or a failure. */
    var incoming: seq<Bytes>
    var outgoing: Bytes
    /** How many bytes each `write` takes; afterwards writing fails. */
    var accepts: seq<nat>
    const failing: bool
    const flushes: bool

    constructor (incoming: seq<Bytes>, accepts: seq<nat>, failing: bool, flushes: bool)
      requires forall i :: 0 <= i < |incoming| ==> incoming[i] != []
      ensures Valid() && Unread() == Flatten(incoming) && outgoing == [] && this.accepts == accepts
      ensures this.failing == failing && this.flushes == flushes
    {
      this.incoming := incoming;
      this.outgoing := [];
      this.accepts := accepts;
      this.failing := failing;
      this.flushes := flushes;
    }

    ghost predicate Valid()
      reads this
    {
      forall i :: 0 <= i < |incoming| ==> incoming[i] != []
    }

    ghost function Unread(): Bytes
      reads this
    {
      Flatten(incoming)
    }

    /** One `read` into a buffer of `size` bytes: part of the first piece, nothing at the end. */
    method Read(size: nat) returns (r: Result<Bytes, HandshakeError>)
      requires Valid() && size > 0
      modifies this`incoming
      ensures Valid()
      ensures r.Ok? ==> |r.value| <= size && old(Unread()) == r.value + Unread()
      ensures r.Ok? && r.value == [] ==> old(Unread()) == []
      ensures r.Err? ==> r.error == Io && failing && Unread() == old(Unread()) == []
      ensures r.Ok? && failing ==> r.value != []
    {
      if incoming == [] {
        return if failing then Err(Io) else Ok([]);
      }
      var piece := incoming[0];
      if |piece| <= size {
        incoming := incoming[1..];
        return Ok(piece);
      }
      incoming := [piece[size..]] + incoming[1..];
      assert incoming[1..] == old(incoming)[1..];
      assert piece == piece[..size] + piece[size..];
      return Ok(piece[..size]);
    }

    /** The error met when the bytes run out. */
    function Ending(): HandshakeError { if failing then Io else UnexpectedEof }

    /** One `write`: some of the bytes, or a failure. */
    method Write(bytes: Bytes) returns (r: Result<nat, HandshakeError>)
      modifies this`outgoing, this`accepts
      ensures r.Ok? ==> r.value <= |bytes| && outgoing == old(outgoing) + bytes[..r.value] && |accepts| < |old(accepts)|
      ensures r.Err? ==> r.error == Io && outgoing == old(outgoing)
    {
      if accepts == [] {
        return Err(Io);
      }
      var n := if accepts[0] < |bytes| then accepts[0] else |bytes|;
      accepts := accepts[1..];
      outgoing := outgoing + bytes[..n];
      return Ok(n);
    }

    /** `write_all`: every byte, or a failure after some of them; a `write` that takes nothing is one. */
    method WriteAll(bytes: Bytes) returns (error: Option<HandshakeError>, ghost written: nat)
      modifies this`outgoing, this`accepts
      ensures written <= |bytes| && outgoing == old(outgoing) + bytes[..written]
      ensures error == if written == |bytes| then None else Some(Io)
    {
      var left := bytes;
      written := 0;
      while left != []
        invariant written <= |bytes| && left == bytes[written..]
        invariant outgoing == old(outgoing) + bytes[..written]
        decreases |accepts|
      {
        var n := Write(left);
        if n.Err? { return Some(Io), written; }
        if n.value == 0 { return Some(Io), written; }
        assert bytes[..written] + left[..n.value] == bytes[..written + n.value];
        written := written + n.value;
        left := left[n.value..];
      }
      return None, written;
    }

    /** `read_exact`: all of `size` bytes whatever the pieces, or the error at the end. */
    method ReadExact(size: nat) returns (r: Result<Bytes, HandshakeError>)
      requires Valid()
      modifies this`incoming
      ensures Valid()
      ensures r.Ok? <==> |old(Unread())| >= size
      ensures r.Ok? ==> r.value == old(Unread())[..size] && Unread() == old(Unread())[size..]
      ensures r.Err? ==> r.error == Ending() && Unread() == []
    {
      var got: Bytes := [];
      while |got| < size
        invariant Valid() && |got| <= size
        invariant old(Unread()) == got + Unread()
      {
        var next := Read(size - |got|);
        if next.Err? { return next; }
        if next.value == [] { return Err(UnexpectedEof); }
        got := got + next.value;
      }
      return Ok(got);
    }

    /** `read_usize`: one byte at a time, at most ten of them. */
    method ReadUsize() returns (r: Result<nat, HandshakeError>, ghost taken: Bytes)
      requires Valid()
      modifies this`incoming
      ensures Valid() && old(Unread()) == taken + Unread() && |taken| <= MAX_VARINT
      ensures VarintSize(taken) == None || VarintSize(taken) == Some(|taken|)
      ensures VarintSize(taken) == None ==>
                r == Err(if |taken| == MAX_VARINT then Overflow else Ending())
                && (|taken| < MAX_VARINT ==> Unread() == [])
      ensures VarintSize(taken) != None ==> r == Length(taken)
    {
      var buffer: Bytes := [];
      while |buffer| < MAX_VARINT
        invariant Valid() && |buffer| <= MAX_VARINT
        invariant old(Unread()) == buffer + Unread()
        invariant VarintSize(buffer) == None
      {
        var next := Read(1);
        if next.Err? { return Err(next.error), buffer; }
        if next.value == [] { return Err(UnexpectedEof), buffer; }
        assert next.value == [next.value[0]];
        VarintStep(buffer, next.value[0]);
        buffer := buffer + next.value;
        if IsLast(next.value[0]) {
          return Length(buffer), buffer;
        }
      }
      return Err(Overflow), buffer;
    }

    /** Reads the peer's handshake: the result depends on the bytes alone, not on how the network cut them. */
    method ReadHandshake() returns (r: Result<Bytes, HandshakeError>, ghost taken: nat)
      requires Valid()
      modifies this`incoming
      ensures Valid() && Decides(old(Unread()), taken, r, Ending()) && Unread() == old(Unread())[taken..]
    {
      ghost var all := Unread();
      var length;
      ghost var varint;
      length, varint := ReadUsize();
      ghost var head := |varint|;
      taken := head;
      assert all[..head] == varint && all[head..] == Unread();
      forall k | 0 <= k < head ensures Reading(all[..k]) == More { OpenHead(all, head, k); }
      if VarintSize(varint) != None { AtHead(varint); }
      if length.Err? { return Err(length.error), taken; }
      if length.value > MAX_HANDSHAKE_SIZE {
        return Err(TooLarge(length.value)), taken;
      }
      var n := length.value;
      forall k | head <= k <= |all|
        ensures k < head + n ==> Reading(all[..k]) == More
        ensures k == head + n ==> Reading(all[..k]) == Received(all[head..k])
      {
        AfterHead(all, head, n, k);
      }
      r := Ok([]);
      if n != 0 { r := ReadExact(n); }
      taken := if r.Ok? then head + n else |all|;
      assert r.Ok? ==> r.value == all[head..taken];
    }

    /** Every input is covered by `Decides`; the last clause spells out what it means for a framed one. */
    method UpgradeInbound() returns (r: Result<Bytes, HandshakeError>, ghost taken: nat)
      requires Valid()
      modifies this`incoming
      ensures Valid() && Decides(old(Unread()), taken, r, Ending()) && Unread() == old(Unread())[taken..]
      ensures forall h, rest :: |h| < USIZE && old(Unread()) == Frame(h) + rest ==>
                if |h| <= MAX_HANDSHAKE_SIZE then r == Ok(h) && Unread() == rest
                else r == Err(TooLarge(|h|)) && Unread() == h + rest
    {
      ghost var all := Unread();
      r, taken := ReadHandshake();
      forall h, rest | |h| < USIZE && all == Frame(h) + rest
        ensures if |h| <= MAX_HANDSHAKE_SIZE then r == Ok(h) && Unread() == rest
                else r == Err(TooLarge(|h|)) && Unread() == h + rest
      {
        DecidesFrame(h, rest, taken, r, Ending());
      }
    }

    /**
     Writes the frame of its own handshake, then reads as the inbound side does. A failure while
     writing or flushing ends the upgrade with nothing read.
     */
    method UpgradeOutbound(handshake: Bytes)
      returns (r: Result<Bytes, HandshakeError>, ghost written: nat, ghost taken: nat)
      requires Valid()
      modifies this
      ensures Valid() && written <= |Frame(handshake)| && outgoing == old(outgoing) + Frame(handshake)[..written]
      ensures written < |Frame(handshake)| || !flushes ==> r == Err(Io) && Unread() == old(Unread())
      ensures written == |Frame(handshake)| && flushes ==>
                Decides(old(Unread()), taken, r, Ending()) && Unread() == old(Unread())[taken..]
      ensures written == |Frame(handshake)| && flushes ==>
                forall h, rest :: |h| < USIZE && old(Unread()) == Frame(h) + rest ==>
                  if |h| <= MAX_HANDSHAKE_SIZE then r == Ok(h) && Unread() == rest
                  else r == Err(TooLarge(|h|)) && Unread() == h + rest
    {
      ghost var all := Unread();
      taken := 0;
      var error;
      error, written := WriteFrame(handshake);
      if error.Some? { return Err(error.value), written, taken; }
      if !flushes { return Err(Io), written, taken; }
      r, taken := ReadHandshake();
      forall h, rest | |h| < USIZE && all == Frame(h) + rest
        ensures if |h| <= MAX_HANDSHAKE_SIZE then r == Ok(h) && Unread() == rest
                else r == Err(TooLarge(|h|)) && Unread() == h + rest
      {
        DecidesFrame(h, rest, taken, r, Ending());
      }
    }

    /** The length, then the handshake. */
    method WriteFrame(handshake: Bytes) returns (error: Option<HandshakeError>, ghost written: nat)
      modifies this`outgoing, this`accepts
      ensures written <= |Frame(handshake)| && outgoing == old(outgoing) + Frame(handshake)[..written]
      ensures error == if written == |Frame(handshake)| then None else Some(Io)
    {
      ghost var head := Leb(|handshake|);
      error, written := WriteAll(Leb(|handshake|));
      assert Frame(handshake)[..written] == head[..written];
      if error.Some? { return; }
      ghost var more;
      error, more := WriteAll(handshake);
      assert Frame(handshake)[..|head| + more] == head + handshake[..more];
      written := |head| + more;
    }
  }

  /** Appending one byte to an unfinished varint ends it exactly when the byte is a last one. */
  lemma {:induction false} VarintStep(b: Bytes, next: byte)
    requires VarintSize(b) == None
    ensures VarintSize(b + [next]) == if IsLast(next) then Some(|b| + 1) else None
  {
    if b != [] {
      assert (b + [next])[1..] == b[1..] + [next];
      VarintStep(b[1..], next);
    }
  }

  /** The point where reading a frame stops. */
  lemma ReadWhole(h: Bytes, rest: Bytes, all: Bytes, taken: nat)
    requires |h| < USIZE && all == Frame(h) + rest && taken <= |all|
    requires forall k :: 0 <= k < taken ==> Reading(all[..k]) == More
    requires Reading(all[..taken]) == More ==> taken == |all|
    ensures |h| <= MAX_HANDSHAKE_SIZE ==> Reading(all[..taken]) == Received(h) && all[taken..] == rest
    ensures |h| > MAX_HANDSHAKE_SIZE ==>
              Reading(all[..taken]) == Refused(TooLarge(|h|)) && all[taken..] == h + rest
  {
    var head := Leb(|h|);
    var stop := if |h| <= MAX_HANDSHAKE_SIZE then |Frame(h)| else |head|;
    assert all[..stop] == Frame(h)[..stop];
    ReadingFrame(h, stop);
    assert taken <= stop;
    assert all[..taken] == Frame(h)[..taken];
    ReadingFrame(h, taken);
  }

  // ---------------------------------------------------------------------------
  // Frames
  // ---------------------------------------------------------------------------

  /** The framed reader that takes over on the substream: the next message and what follows it. */
  function TakeFrame(b: Bytes): (r: Option<(Bytes, Bytes)>)
    ensures r.Some? ==> |r.value.1| < |b|
  {
    var size := VarintSize(b);
    if size.None? || size.value > MAX_VARINT then None
    else TakeBody(Length(b[..size.value]), b[size.value..])
  }

  function TakeBody(length: Result<nat, HandshakeError>, b: Bytes): (r: Option<(Bytes, Bytes)>)
    ensures r.Some? ==> |r.value.1| <= |b|
  {
    if length.Err? || length.value > |b| then None
    else Some((b[..length.value], b[length.value..]))
  }

  lemma NextFrame(m: Bytes, rest: Bytes)
    requires |m| < USIZE
    ensures TakeFrame(Frame(m) + rest) == Some((m, rest))
  {
    var head, body := Leb(|m|), m + rest;
    assert Frame(m) + rest == head + body;
    LebShape(|m|, body);
    UsizeFits(|m|);
    LengthOfLeb(|m|);
    assert (head + body)[..|head|] == head && (head + body)[|head|..] == body;
    assert body[..|m|] == m && body[|m|..] == rest;
  }

  /** A frame that is there in full is read the same whatever follows. */
  lemma TakeFrameMore(b: Bytes, more: Bytes)
    requires TakeFrame(b).Some?
    ensures TakeFrame(b + more) == Some((TakeFrame(b).value.0, TakeFrame(b).value.1 + more))
  {
    var size := VarintSize(b).value;
    VarintHead(b, more);
    var head, body := b[..size], b[size..];
    assert (b + more)[..size] == head && (b + more)[size..] == body + more;
    TakeBodyMore(Length(head), body, more);
  }

  lemma TakeBodyMore(length: Result<nat, HandshakeError>, body: Bytes, more: Bytes)
    requires TakeBody(length, body).Some?
    ensures TakeBody(length, body + more) ==
            Some((TakeBody(length, body).value.0, TakeBody(length, body).value.1 + more))
  {
    var n := length.value;
    assert (body + more)[..n] == body[..n] && (body + more)[n..] == body[n..] + more;
  }

  // ---------------------------------------------------------------------------
  // Two peers over two byte channels
  // ---------------------------------------------------------------------------

  function Frames(messages: seq<Bytes>): Bytes {
    if messages == [] then [] else Frame(messages[0]) + Frames(messages[1..])
  }

  /**
   A dialer that runs the outbound upgrade and a listener that runs the inbound one on the same
   substream. Each side has bytes it still has to write, bytes under way to the other side, and
   the bytes its handshake reader has consumed. `notifications` are the messages the dialer has
   sent and `taken` those the listener has decoded.
   */
  datatype Pair = Pair(
    dialerOut: Bytes, toListener: Bytes, listenerRead: Bytes,
    listenerOut: Bytes, toDialer: Bytes, dialerRead: Bytes,
    answered: bool, notifications: seq<Bytes>, taken: seq<Bytes>)

  datatype Move =
    | DialerWrites(n: nat)
    | DialerReads
    | DialerNotifies(message: Bytes)
    | ListenerWrites(n: nat)
    | ListenerReads
    | ListenerAnswers
    | ListenerTakes

  function Start(dialer: Bytes): Pair {
    Pair(Frame(dialer), [], [], [], [], [], false, [], [])
  }

  /** The dialer reads only after flushing its own handshake, and notifies only once it has the answer. */
  predicate Enabled(p: Pair, m: Move) {
    match m
    case DialerWrites(n) => n <= |p.dialerOut|
    case DialerReads => p.dialerOut == [] && Reading(p.dialerRead).More? && p.toDialer != []
    case DialerNotifies(message) => Reading(p.dialerRead).Received? && |message| < USIZE
    case ListenerWrites(n) => n <= |p.listenerOut|
    case ListenerReads => Reading(p.listenerRead).More? && p.toListener != []
    case ListenerAnswers => Reading(p.listenerRead).Received? && !p.answered
    case ListenerTakes => Reading(p.listenerRead).Received? && TakeFrame(p.toListener).Some?
  }

  function Apply(p: Pair, m: Move, listener: Bytes): Pair
    requires Enabled(p, m)
  {
    match m
    case DialerWrites(n) =>
      p.(dialerOut := p.dialerOut[n..], toListener := p.toListener + p.dialerOut[..n])
    case DialerReads =>
      p.(toDialer := p.toDialer[1..], dialerRead := p.dialerRead + [p.toDialer[0]])
    case DialerNotifies(message) =>
      p.(dialerOut := p.dialerOut + Frame(message), notifications := p.notifications + [message])
    case ListenerWrites(n) =>
      p.(listenerOut := p.listenerOut[n..], toDialer := p.toDialer + p.listenerOut[..n])
    case ListenerReads =>
      p.(toListener := p.toListener[1..], listenerRead := p.listenerRead + [p.toListener[0]])
    case ListenerAnswers =>
      p.(listenerOut := p.listenerOut + Frame(listener), answered := true)
    case ListenerTakes =>
      var (message, rest) := TakeFrame(p.toListener).value;
      p.(toListener := rest, taken := p.taken + [message])
  }

  ghost predicate Exchange(dialer: Bytes, listener: Bytes, moves: seq<Move>, p: Pair)
    decreases |moves|
  {
    if moves == [] then p == Start(dialer)
    else
      var last := |moves| - 1;
      exists q: Pair :: Exchange(dialer, listener, moves[..last], q)
                     && Enabled(q, moves[last]) && p == Apply(q, moves[last], listener)
  }

  /** The messages sent and not taken yet. */
  function Left(p: Pair): seq<Bytes>
    requires |p.taken| <= |p.notifications|
  {
    p.notifications[|p.taken|..]
  }

  /** Towards the listener: its handshake reader, what is under way and what the dialer still has to write. */
  ghost predicate Forth(dialer: Bytes, p: Pair) {
    && p.listenerRead <= Frame(dialer)
    && p.taken <= p.notifications && (p.taken != [] ==> Reading(p.listenerRead).Received?)
    && (forall k :: 0 <= k < |p.notifications| ==> |p.notifications[k]| < USIZE)
    && p.listenerRead + (p.toListener + p.dialerOut) == Frame(dialer) + Frames(Left(p))
  }

  /** Towards the dialer: the answer, once the listener has given it. */
  ghost predicate Back(listener: Bytes, p: Pair) {
    && p.dialerRead <= Frame(listener)
    && p.dialerRead + (p.toDialer + p.listenerOut) == (if p.answered then Frame(listener) else [])
    && (p.answered ==> Reading(p.listenerRead).Received?)
  }

  ghost predicate Between(dialer: Bytes, listener: Bytes, p: Pair) {
    Forth(dialer, p) && Back(listener, p)
  }

  lemma {:induction false} FramesAppend(messages: seq<Bytes>, m: Bytes)
    ensures Frames(messages + [m]) == Frames(messages) + Frame(m)
  {
    if messages == [] {
      assert ([m])[1..] == [];
    } else {
      FramesAppend(messages[1..], m);
      assert (messages + [m])[1..] == messages[1..] + [m];
    }
  }

  /** A reader that wants more of a frame's prefix has not got the whole frame. */
  lemma WantsMore(h: Bytes, read: Bytes)
    requires |h| < USIZE && read <= Frame(h)
    ensures Reading(read).More? ==> |read| < |Frame(h)|
    ensures Reading(read).Received? ==> read == Frame(h) && Reading(read).handshake == h
    ensures Reading(read).Received? ==> |h| <= MAX_HANDSHAKE_SIZE
    ensures Reading(read).Refused? ==> |h| > MAX_HANDSHAKE_SIZE && Reading(read).error == TooLarge(|h|)
  {
    assert read == Frame(h)[..|read|];
    ReadingFrame(h, |read|);
    assert Frame(h)[..|Frame(h)|] == Frame(h);
  }

  /** Writing moves bytes from the sender to the channel and changes nothing of the stream. */
  lemma WriteKeeps(read: Bytes, channel: Bytes, out: Bytes, n: nat)
    requires n <= |out|
    ensures read + ((channel + out[..n]) + out[n..]) == read + (channel + out)
  {
    assert out == out[..n] + out[n..];
  }

  /** Reading one byte keeps the stream and stays within the frame being read. */
  lemma ReadKeeps(h: Bytes, rest: Bytes, read: Bytes, channel: Bytes, out: Bytes)
    requires |h| < USIZE && read <= Frame(h) && Reading(read).More? && channel != []
    requires read + (channel + out) == Frame(h) + rest
    ensures read + [channel[0]] <= Frame(h)
    ensures (read + [channel[0]]) + (channel[1..] + out) == Frame(h) + rest
  {
    WantsMore(h, read);
    assert (read + (channel + out))[|read|] == channel[0];
    assert (Frame(h) + rest)[|read|] == Frame(h)[|read|];
    assert [channel[0]] + channel[1..] == channel;
    assert (read + [channel[0]]) + (channel[1..] + out) == read + (channel + out);
  }

  lemma MoveForth(dialer: Bytes, listener: Bytes, p: Pair, m: Move)
    requires |dialer| < USIZE && Forth(dialer, p) && Enabled(p, m)
    ensures Forth(dialer, Apply(p, m, listener))
  {
    match m
    case DialerWrites(n) => WriteKeeps(p.listenerRead, p.toListener, p.dialerOut, n);
    case DialerNotifies(message) =>
      assert Left(Apply(p, m, listener)) == Left(p) + [message];
      NotifyKeeps(dialer, p, message);
    case ListenerReads => ReadKeeps(dialer, Frames(Left(p)), p.listenerRead, p.toListener, p.dialerOut);
    case ListenerTakes => TakeKeeps(dialer, listener, p);
    case _ =>
  }

  lemma MoveBack(listener: Bytes, p: Pair, m: Move)
    requires |listener| < USIZE && Back(listener, p) && Enabled(p, m)
    ensures Back(listener, Apply(p, m, listener))
  {
    match m
    case DialerReads =>
      assert p.answered;
      assert Frame(listener) + [] == Frame(listener);
      ReadKeeps(listener, [], p.dialerRead, p.toDialer, p.listenerOut);
    case ListenerWrites(n) => WriteKeeps(p.dialerRead, p.toDialer, p.listenerOut, n);
    case ListenerReads => assert !p.answered;
    case _ =>
  }

  lemma MoveKeeps(dialer: Bytes, listener: Bytes, p: Pair, m: Move)
    requires |dialer| < USIZE && |listener| < USIZE
    requires Between(dialer, listener, p) && Enabled(p, m)
    ensures Between(dialer, listener, Apply(p, m, listener))
  {
    MoveForth(dialer, listener, p, m);
    MoveBack(listener, p, m);
  }

  /** What the listener decodes is the next message sent. */
  lemma TakeKeeps(dialer: Bytes, listener: Bytes, p: Pair)
    requires |dialer| < USIZE && Forth(dialer, p) && Enabled(p, ListenerTakes)
    ensures Forth(dialer, Apply(p, ListenerTakes, listener))
  {
    var there, coming, left := p.toListener, p.dialerOut, Left(p);
    assert there + coming == Frames(left) by {
      WantsMore(dialer, p.listenerRead);
      SamePrefix(Frame(dialer), there + coming, Frames(left));
    }
    assert p.listenerRead == Frame(dialer) by { WantsMore(dialer, p.listenerRead); }
    NextTaken(there, coming, left);
    OneMoreTaken(p.notifications, p.taken, TakeFrame(there).value.0);
  }

  lemma OneMoreTaken(sent: seq<Bytes>, taken: seq<Bytes>, message: Bytes)
    requires taken <= sent && |taken| < |sent| && message == sent[|taken|]
    ensures taken + [message] <= sent && sent[|taken| + 1..] == sent[|taken|..][1..]
  {
  }

  lemma SamePrefix(a: Bytes, b: Bytes, c: Bytes)
    requires a + b == a + c
    ensures b == c
  {
    assert (a + b)[|a|..] == b && (a + c)[|a|..] == c;
  }

  lemma NextTaken(there: Bytes, coming: Bytes, messages: seq<Bytes>)
    requires there + coming == Frames(messages) && TakeFrame(there).Some?
    requires forall k :: 0 <= k < |messages| ==> |messages[k]| < USIZE
    ensures messages != [] && TakeFrame(there).value.0 == messages[0]
    ensures TakeFrame(there).value.1 + coming == Frames(messages[1..])
  {
    assert there != [];
    assert messages != [];
    TakeFrameMore(there, coming);
    NextFrame(messages[0], Frames(messages[1..]));
  }

  lemma NotifyKeeps(dialer: Bytes, p: Pair, message: Bytes)
    requires |p.taken| <= |p.notifications|
    requires p.listenerRead + (p.toListener + p.dialerOut) == Frame(dialer) + Frames(Left(p))
    ensures p.listenerRead + (p.toListener + (p.dialerOut + Frame(message)))
         == Frame(dialer) + Frames(Left(p) + [message])
  {
    FramesAppend(Left(p), message);
    assert p.listenerRead + (p.toListener + (p.dialerOut + Frame(message)))
        == (p.listenerRead + (p.toListener + p.dialerOut)) + Frame(message);
    assert (Frame(dialer) + Frames(Left(p))) + Frame(message)
        == Frame(dialer) + (Frames(Left(p)) + Frame(message));
  }

  lemma {:induction false} ExchangeKeeps(dialer: Bytes, listener: Bytes, moves: seq<Move>, p: Pair)
    requires |dialer| < USIZE && |listener| < USIZE
    requires Exchange(dialer, listener, moves, p)
    ensures Between(dialer, listener, p)
    decreases |moves|
  {
    if moves != [] {
      var last := |moves| - 1;
      var q: Pair :| Exchange(dialer, listener, moves[..last], q)
                  && Enabled(q, moves[last]) && p == Apply(q, moves[last], listener);
      ExchangeKeeps(dialer, listener, moves[..last], q);
      MoveKeeps(dialer, listener, q, moves[last]);
    }
  }

  /**
   Whatever the interleaving and the fragmentation: a side that ends with a handshake ends with the
   other side's, having consumed its frame and not one byte more, so what the listener finds next
   is the frames of the messages it has not taken; the only refusal is of a handshake over 1024 bytes.
   */
  lemma HandshakesExchanged(dialer: Bytes, listener: Bytes, moves: seq<Move>, p: Pair)
    requires |dialer| < USIZE && |listener| < USIZE
    requires Exchange(dialer, listener, moves, p)
    ensures p.taken <= p.notifications
    ensures Reading(p.listenerRead).Received? ==>
              && Reading(p.listenerRead).handshake == dialer && |dialer| <= MAX_HANDSHAKE_SIZE
              && p.toListener + p.dialerOut == Frames(Left(p))
    ensures Reading(p.dialerRead).Received? ==>
              && Reading(p.dialerRead).handshake == listener && |listener| <= MAX_HANDSHAKE_SIZE
              && p.toDialer + p.listenerOut == []
              && Reading(p.listenerRead) == Received(dialer)
    ensures Reading(p.listenerRead).Refused? ==>
              |dialer| > MAX_HANDSHAKE_SIZE && Reading(p.listenerRead).error == TooLarge(|dialer|)
    ensures Reading(p.dialerRead).Refused? ==>
              |listener| > MAX_HANDSHAKE_SIZE && Reading(p.dialerRead).error == TooLarge(|listener|)
  {
    ExchangeKeeps(dialer, listener, moves, p);
    WantsMore(dialer, p.listenerRead);
    WantsMore(listener, p.dialerRead);
    if Reading(p.listenerRead).Received? {
      SamePrefix(Frame(dialer), p.toListener + p.dialerOut, Frames(Left(p)));
    }
  }

  /**
   The exchange never gets stuck: once no byte is waiting to be written or read, the listener has
   decided, accepting exactly the handshakes of up to 1024 bytes, and after its answer the dialer
   has decided the same way.
   */
  lemma QuietMeansDecided(dialer: Bytes, listener: Bytes, moves: seq<Move>, p: Pair)
    requires |dialer| < USIZE && |listener| < USIZE
    requires Exchange(dialer, listener, moves, p)
    requires !Enabled(p, ListenerReads) && !Enabled(p, DialerReads) && !Enabled(p, ListenerAnswers)
    requires p.dialerOut == [] && p.listenerOut == []
    ensures Reading(p.listenerRead) ==
            if |dialer| <= MAX_HANDSHAKE_SIZE then Received(dialer) else Refused(TooLarge(|dialer|))
    ensures |dialer| <= MAX_HANDSHAKE_SIZE ==>
              Reading(p.dialerRead) ==
              if |listener| <= MAX_HANDSHAKE_SIZE then Received(listener) else Refused(TooLarge(|listener|))
  {
    ExchangeKeeps(dialer, listener, moves, p);
    ListenerDecided(dialer, p);
    if |dialer| <= MAX_HANDSHAKE_SIZE {
      DialerDecided(listener, p);
    }
  }

  lemma ListenerDecided(dialer: Bytes, p: Pair)
    requires |dialer| < USIZE && Forth(dialer, p) && p.dialerOut == [] && !Enabled(p, ListenerReads)
    ensures Reading(p.listenerRead) ==
            if |dialer| <= MAX_HANDSHAKE_SIZE then Received(dialer) else Refused(TooLarge(|dialer|))
  {
    WantsMore(dialer, p.listenerRead);
    var more := Reading(p.listenerRead).More?;
    assert more ==> |p.listenerRead + (p.toListener + p.dialerOut)| == |p.listenerRead|;
    assert !more;
  }

  lemma DialerDecided(listener: Bytes, p: Pair)
    requires |listener| < USIZE && Back(listener, p) && p.answered
    requires p.dialerOut == [] && p.listenerOut == [] && !Enabled(p, DialerReads)
    ensures Reading(p.dialerRead) ==
            if |listener| <= MAX_HANDSHAKE_SIZE then Received(listener) else Refused(TooLarge(|listener|))
  {
    WantsMore(listener, p.dialerRead);
    var more := Reading(p.dialerRead).More?;
    assert more ==> |p.dialerRead + (p.toDialer + p.listenerOut)| == |p.dialerRead|;
    assert !more;
  }

  /** All messages of a stream, if it holds whole frames only. */
  function TakeFrames(b: Bytes): Option<seq<Bytes>>
    decreases |b|
  {
    if b == [] then Some([])
    else
      var first := TakeFrame(b);
      if first.None? then None
      else
        var rest := TakeFrames(first.value.1);
        if rest.None? then None else Some([first.value.0] + rest.value)
  }

  lemma {:induction false} FramesDecode(messages: seq<Bytes>)
    requires forall i :: 0 <= i < |messages| ==> |messages[i]| < USIZE
    ensures TakeFrames(Frames(messages)) == Some(messages)
  {
    if messages != [] {
      NextFrame(messages[0], Frames(messages[1..]));
      FramesDecode(messages[1..]);
      assert messages == [messages[0]] + messages[1..];
    }
  }

  /**
   What the listener has decoded are the first of the messages sent, in order, and what is still
   under way decodes to the rest of them.
   */
  lemma NotificationsFollow(dialer: Bytes, listener: Bytes, moves: seq<Move>, p: Pair)
    requires |dialer| < USIZE && |listener| < USIZE
    requires Exchange(dialer, listener, moves, p) && Reading(p.listenerRead).Received?
    ensures p.taken <= p.notifications
    ensures TakeFrames(p.toListener + p.dialerOut) == Some(Left(p))
  {
    ExchangeKeeps(dialer, listener, moves, p);
    HandshakesExchanged(dialer, listener, moves, p);
    FramesDecode(Left(p));
  }
}
