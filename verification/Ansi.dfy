/**
 Stripping colour codes from what goes to the log file (control sequences, section 5.4 of
 ECMA-48). Model of `strip_ansi` in cli/src/commands/authority_check.rs.
 */
module Ansi {
  import opened Wrappers

  const ESC: byte := 0x1b
  const BRACKET: byte := 0x5b
  const M: byte := 0x6d

  /** A code starts at position `i`. */
  predicate StartsCode(buf: Bytes, i: nat) {
    i + 1 < |buf| && buf[i] == ESC && buf[i + 1] == BRACKET
  }

  /** What follows the first `m`, or nothing. */
  function AfterM(buf: Bytes): (r: Bytes)
    ensures |r| <= |buf|
  {
    if buf == [] then [] else if buf[0] == M then buf[1..] else AfterM(buf[1..])
  }

  function Strip(buf: Bytes): Bytes
    decreases |buf|
  {
    if buf == [] then []
    else if StartsCode(buf, 0) then Strip(AfterM(buf[2..]))
    else [buf[0]] + Strip(buf[1..])
  }

  /** The program's scan with an index. */
  method StripAnsi(buf: Bytes) returns (out: Bytes)
    ensures out == Strip(buf)
  {
    out := [];
    var i := 0;
    while i < |buf|
      invariant i <= |buf|
      invariant out + Strip(buf[i..]) == Strip(buf)
    {
      var rest := buf[i..];
      if buf[i] == ESC && i + 1 < |buf| && buf[i + 1] == BRACKET {
        assert StartsCode(rest, 0) && rest[2..] == buf[i + 2..];
        i := i + 2;
        while i < |buf| && buf[i] != M
          invariant i <= |buf|
          invariant AfterM(buf[i..]) == AfterM(rest[2..])
        {
          assert buf[i..][0] == buf[i] && buf[i..][1..] == buf[i + 1..];
          i := i + 1;
        }
        if i < |buf| {
          assert buf[i..][0] == M && buf[i..][1..] == buf[i + 1..];
          i := i + 1;
        }
      } else {
        assert rest[0] == buf[i] && rest[1..] == buf[i + 1..] && !StartsCode(rest, 0);
        out := out + [buf[i]];
        i := i + 1;
      }
    }
  }

  // ---------------------------------------------------------------------------
  // Text and codes
  // ---------------------------------------------------------------------------

  datatype Piece = Text(bytes: Bytes) | Code(parameters: Bytes)

  predicate PieceOk(p: Piece) {
    match p
    case Text(bytes) => ESC !in bytes
    case Code(parameters) => M !in parameters
  }

  predicate PiecesOk(ps: seq<Piece>) {
    forall k :: 0 <= k < |ps| ==> PieceOk(ps[k])
  }

  function Render(ps: seq<Piece>): Bytes {
    if ps == [] then []
    else (match ps[0]
          case Text(bytes) => bytes
          case Code(parameters) => [ESC, BRACKET] + parameters + [M]) + Render(ps[1..])
  }

  function Plain(ps: seq<Piece>): Bytes {
    if ps == [] then []
    else if ps[0].Text? then ps[0].bytes + Plain(ps[1..])
    else Plain(ps[1..])
  }

  lemma {:induction false} TextKept(text: Bytes, rest: Bytes)
    requires ESC !in text
    ensures Strip(text + rest) == text + Strip(rest)
    decreases |text|
  {
    if text == [] {
      assert text + rest == rest;
    } else {
      assert (text + rest)[1..] == text[1..] + rest;
      TextKept(text[1..], rest);
    }
  }

  lemma {:induction false} CodeEnds(parameters: Bytes, rest: Bytes)
    requires M !in parameters
    ensures AfterM(parameters + [M] + rest) == rest
  {
    if parameters == [] {
      assert ([M] + rest)[1..] == rest;
      assert parameters + [M] + rest == [M] + rest;
    } else {
      assert (parameters + [M] + rest)[1..] == parameters[1..] + [M] + rest;
      CodeEnds(parameters[1..], rest);
    }
  }

  lemma CodeDropped(parameters: Bytes, rest: Bytes)
    requires M !in parameters
    ensures Strip([ESC, BRACKET] + parameters + [M] + rest) == Strip(rest)
  {
    var buf := [ESC, BRACKET] + parameters + [M] + rest;
    assert StartsCode(buf, 0) && buf[2..] == parameters + [M] + rest;
    CodeEnds(parameters, rest);
  }

  /** Any interleaving of text and codes: exactly the text is left, and what follows is stripped on its own. */
  lemma {:induction false} StripPieces(ps: seq<Piece>, rest: Bytes)
    requires PiecesOk(ps)
    ensures Strip(Render(ps) + rest) == Plain(ps) + Strip(rest)
    decreases |ps|
  {
    if ps == [] {
      assert Render(ps) + rest == rest;
    } else {
      StripPieces(ps[1..], rest);
      var next := Render(ps[1..]) + rest;
      match ps[0] {
        case Text(bytes) =>
          assert Render(ps) + rest == bytes + next;
          TextKept(bytes, next);
        case Code(parameters) =>
          assert Render(ps) + rest == [ESC, BRACKET] + parameters + [M] + next;
          CodeDropped(parameters, next);
      }
    }
  }

  // ---------------------------------------------------------------------------
  // Writing in parts
  // ---------------------------------------------------------------------------

  /** The scan of `buf` does not end inside a code or right after an escape. */
  predicate Complete(buf: Bytes)
    decreases |buf|
  {
    if buf == [] then true
    else if StartsCode(buf, 0) then M in buf[2..] && Complete(AfterM(buf[2..]))
    else if |buf| == 1 then buf[0] != ESC
    else Complete(buf[1..])
  }

  lemma {:induction false} AfterMAppend(a: Bytes, b: Bytes)
    ensures M in a ==> AfterM(a + b) == AfterM(a) + b
    ensures M !in a ==> AfterM(a) == [] && AfterM(a + b) == AfterM(b)
  {
    if a == [] {
      assert a + b == b;
    } else {
      assert (a + b)[1..] == a[1..] + b;
      AfterMAppend(a[1..], b);
    }
  }

  lemma {:induction false} CompleteSplits(a: Bytes, b: Bytes)
    requires Complete(a)
    ensures Strip(a + b) == Strip(a) + Strip(b)
    decreases |a|
  {
    if a == [] {
      assert a + b == b;
    } else if StartsCode(a, 0) {
      assert (a + b)[2..] == a[2..] + b && StartsCode(a + b, 0);
      AfterMAppend(a[2..], b);
      CompleteSplits(AfterM(a[2..]), b);
    } else {
      assert (a + b)[1..] == a[1..] + b;
      assert !StartsCode(a + b, 0);
      if |a| > 1 {
        CompleteSplits(a[1..], b);
      } else {
        assert a[1..] == [] && [] + b == b;
      }
    }
  }

  /** An incomplete write: `m` would close the code it ends in, `[m` the code its escape starts. */
  lemma {:induction false} IncompleteDoesNotSplit(a: Bytes)
    requires !Complete(a)
    ensures Strip(a + [M]) == Strip(a) || Strip(a + [BRACKET, M]) + [ESC] == Strip(a)
    decreases |a|
  {
    if StartsCode(a, 0) {
      var x, y := [M], [BRACKET, M];
      assert (a + x)[2..] == a[2..] + x && StartsCode(a + x, 0);
      assert (a + y)[2..] == a[2..] + y && StartsCode(a + y, 0);
      AfterMAppend(a[2..], x);
      AfterMAppend(a[2..], y);
      if M in a[2..] {
        IncompleteDoesNotSplit(AfterM(a[2..]));
      } else {
        assert AfterM(x) == [];
      }
    } else if |a| == 1 {
      var y := a + [BRACKET, M];
      assert StartsCode(y, 0) && y[2..] == [M] && AfterM([M]) == [];
      assert a[1..] == [];
    } else {
      assert (a + [M])[1..] == a[1..] + [M] && (a + [BRACKET, M])[1..] == a[1..] + [BRACKET, M];
      IncompleteDoesNotSplit(a[1..]);
    }
  }

  lemma PlainStays()
    ensures Strip([M]) == [M] && Strip([BRACKET, M]) == [BRACKET, M]
  {
    assert [BRACKET, M][1..] == [M] && [M][1..] == [];
  }

  /**
   Stripping write by write gives the same as stripping at once, whatever comes next, exactly when
   the write is complete.
   */
  lemma SplitIffComplete(a: Bytes)
    ensures Complete(a) <==> forall b :: Strip(a + b) == Strip(a) + Strip(b)
  {
    if Complete(a) {
      forall b
        ensures Strip(a + b) == Strip(a) + Strip(b)
      {
        CompleteSplits(a, b);
      }
    } else {
      IncompleteDoesNotSplit(a);
      PlainStays();
      assert |Strip(a + [M])| < |Strip(a) + Strip([M])| || |Strip(a + [BRACKET, M])| < |Strip(a) + Strip([BRACKET, M])|;
    }
  }

  /** Text and codes in full are complete, so a log written piece by piece is stripped correctly. */
  lemma {:induction false} PiecesComplete(ps: seq<Piece>)
    requires PiecesOk(ps)
    ensures Complete(Render(ps))
  {
    forall b
      ensures Strip(Render(ps) + b) == Strip(Render(ps)) + Strip(b)
    {
      StripPieces(ps, b);
      StripPieces(ps, []);
      assert Render(ps) + [] == Render(ps) && Strip([]) == [];
    }
    SplitIffComplete(Render(ps));
  }

  /** Stripping leaves a text alone exactly when no code starts in it. */
  lemma {:induction false} StableIffNoCode(s: Bytes)
    ensures |Strip(s)| <= |s|
    ensures Strip(s) == s <==> forall i: nat :: !StartsCode(s, i)
    decreases |s|
  {
    if s != [] {
      if StartsCode(s, 0) {
        StableIffNoCode(AfterM(s[2..]));
      } else {
        StableIffNoCode(s[1..]);
        assert forall i: nat :: StartsCode(s[1..], i) <==> StartsCode(s, i + 1);
        assert Strip(s)[1..] == Strip(s[1..]);
        if Strip(s) == s {
          forall i: nat
            ensures !StartsCode(s, i)
          {
            if i > 0 {
              assert StartsCode(s, i) == StartsCode(s[1..], i - 1);
            }
          }
        }
      }
    }
  }

  /** The first byte of the input that the scan keeps. */
  function FirstKept(buf: Bytes): Option<byte>
    decreases |buf|
  {
    if buf == [] then None
    else if StartsCode(buf, 0) then FirstKept(AfterM(buf[2..]))
    else Some(buf[0])
  }

  /** Some kept escape is followed, among the kept bytes, by a bracket it did not stand next to. */
  predicate Rejoins(buf: Bytes)
    decreases |buf|
  {
    if buf == [] then false
    else if StartsCode(buf, 0) then Rejoins(AfterM(buf[2..]))
    else (buf[0] == ESC && FirstKept(buf[1..]) == Some(BRACKET)) || Rejoins(buf[1..])
  }

  lemma {:induction false} FirstKeptIsFirst(s: Bytes)
    ensures FirstKept(s) == if Strip(s) == [] then None else Some(Strip(s)[0])
    decreases |s|
  {
    if s != [] && StartsCode(s, 0) {
      FirstKeptIsFirst(AfterM(s[2..]));
    }
  }

  ghost predicate HasCode(s: Bytes) {
    exists i: nat :: StartsCode(s, i)
  }

  /** A code starts in `[b] + t` at its head or in `t`. */
  lemma CodeInCons(b: byte, t: Bytes)
    ensures HasCode([b] + t) <==> (b == ESC && t != [] && t[0] == BRACKET) || HasCode(t)
  {
    var s := [b] + t;
    assert StartsCode(s, 0) <==> b == ESC && t != [] && t[0] == BRACKET;
    assert forall i: nat :: StartsCode(s, i + 1) <==> StartsCode(t, i);
    if HasCode(s) {
      var i: nat :| StartsCode(s, i);
      if i > 0 { assert StartsCode(t, i - 1); }
    }
    if HasCode(t) {
      var i: nat :| StartsCode(t, i);
      assert StartsCode(s, i + 1);
    }
  }

  lemma {:induction false} RejoinsMeansCode(s: Bytes)
    ensures Rejoins(s) <==> HasCode(Strip(s))
    decreases |s|
  {
    if s != [] {
      if StartsCode(s, 0) {
        RejoinsMeansCode(AfterM(s[2..]));
      } else {
        RejoinsMeansCode(s[1..]);
        FirstKeptIsFirst(s[1..]);
        CodeInCons(s[0], Strip(s[1..]));
      }
    }
  }

  /**
   Stripping twice is stripping once exactly when the input has no escape that a removed code parts
   from a bracket.
   */
  lemma IdempotentIff(s: Bytes)
    ensures Strip(Strip(s)) == Strip(s) <==> !Rejoins(s)
  {
    StableIffNoCode(Strip(s));
    RejoinsMeansCode(s);
  }

  /** Stripping is not idempotent: a code inside a split introducer joins it again. */
  lemma NotIdempotent()
    ensures var s := [ESC, ESC, BRACKET, M, BRACKET, M];
            Strip(s) == [ESC, BRACKET, M] && Strip(Strip(s)) == [] && Rejoins(s)
  {
    var s := [ESC, ESC, BRACKET, M, BRACKET, M];
    assert s == [ESC] + ([ESC, BRACKET] + [] + [M] + [BRACKET, M]);
    CodeDropped([], [BRACKET, M]);
    PlainStays();
    assert s[1..] == [ESC, BRACKET] + [] + [M] + [BRACKET, M];
    CodeDropped([], []);
    assert [ESC, BRACKET, M] == [ESC, BRACKET] + [] + [M] + [];
    IdempotentIff(s);
  }
}
