/**
 The decoder is exact: it reads a display out of the bytes exactly if they are an encoding of a
 registration with that display, so no malformed input is taken for one.
 */
module IdentityExact {
  import opened Wrappers
  import opened Scale
  import opened Identity

  // ---------------------------------------------------------------------------
  // Integers
  // ---------------------------------------------------------------------------

  /** Little-endian bytes are those of their value. */
  lemma {:induction false} LeExact(b: Bytes)
    ensures LeValue(b) < Pow256(|b|) && LeBytes(LeValue(b), |b|) == b
    decreases |b|
  {
    if b != [] {
      LeExact(b[1..]);
      var v := LeValue(b[1..]);
      assert (b[0] as nat + 256 * v) % 256 == b[0] as nat && (b[0] as nat + 256 * v) / 256 == v;
      assert b == [b[0]] + b[1..];
    }
  }

  lemma {:induction false} LeTaken(input: Bytes, k: nat)
    requires k <= |input|
    ensures TakeLe(input, k) == Some((LeValue(input[..k]), input[k..]))
    ensures LeValue(input[..k]) < Pow256(k)
    ensures input == LeBytes(LeValue(input[..k]), k) + input[k..]
    ensures k > 0 ==> LeValue(input[..k]) % 4 == input[0] as nat % 4
  {
    var b := input[..k];
    LeExact(b);
    assert input == b + input[k..];
    if k > 0 {
      LeFirst(b);
    }
  }

  lemma {:induction false} LeFirst(b: Bytes)
    requires b != []
    ensures LeValue(b) % 4 == b[0] as nat % 4
  {
    var v := LeValue(b[1..]);
    assert LeValue(b) == b[0] as nat + 4 * (64 * v);
  }

  /** Only the least width holds a value that is too large for fewer bytes. */
  lemma {:induction false} WidthUnique(n: nat, k: nat, from: nat)
    requires 4 <= from <= k && n < Pow256(k) && (k > from ==> n >= Pow256(k - 1))
    ensures BigWidth(n, from) == k
    decreases k - from
  {
    if from < k {
      PowersGrow(from, k - 1);
      WidthUnique(n, k, from + 1);
    }
  }

  lemma {:induction false} PowersGrow(j: nat, k: nat)
    requires j <= k
    ensures Pow256(j) <= Pow256(k)
    decreases k
  {
    if j < k {
      PowersGrow(j, k - 1);
    }
  }

  lemma {:induction false} TwoByteExact(input: Bytes, n: nat, rest: Bytes)
    requires input != [] && input[0] as nat % 4 == 1 && InRange(TakeLe(input, 2), 0x40) == Some((n, rest))
    ensures BigWidth(n, 4) == 4 && input == EncodeCompact(n) + rest
  {
    Powers();
    LeTaken(input, 2);
    assert LeValue(input[..2]) == 4 * n + 1;
  }

  lemma {:induction false} FourByteExact(input: Bytes, n: nat, rest: Bytes)
    requires input != [] && input[0] as nat % 4 == 2 && InRange(TakeLe(input, 4), 0x4000) == Some((n, rest))
    ensures BigWidth(n, 4) == 4 && input == EncodeCompact(n) + rest
  {
    Powers();
    LeTaken(input, 4);
    assert LeValue(input[..4]) == 4 * n + 2;
  }

  lemma {:induction false} BigExact(input: Bytes, k: nat, n: nat, rest: Bytes)
    requires input != [] && 4 <= k <= 16 && input[0] as nat == (k - 4) * 4 + 3
    requires TakeLe(input[1..], k) == Some((n, rest)) && n >= LeastIn(k)
    ensures BigWidth(n, 4) == k && input == EncodeCompact(n) + rest
  {
    Powers();
    LeTaken(input[1..], k);
    if k > 4 { PowersGrow(4, k - 1); }
    WidthUnique(n, k, 4);
    assert input == [input[0]] + (LeBytes(n, k) + rest);
    assert input == ([input[0]] + LeBytes(n, k)) + rest;
  }

  /** A compact integer is read exactly from its own encoding, if that is not too wide. */
  lemma {:induction false} CompactExact(input: Bytes, width: nat, n: nat, rest: Bytes)
    requires 4 <= width <= 16
    ensures TakeCompact(input, width) == Some((n, rest)) <==>
            BigWidth(n, 4) <= width && input == EncodeCompact(n) + rest
  {
    if BigWidth(n, 4) <= width && input == EncodeCompact(n) + rest {
      CompactRoundTrip(n, width, rest);
    }
    if TakeCompact(input, width) == Some((n, rest)) {
      CompactMode(input, width);
      var mode := input[0] as nat % 4;
      if mode == 0 {
        Powers();
        assert input == [input[0]] + input[1..];
        assert [(n * 4) as byte] == [input[0]];
      } else if mode == 1 {
        TwoByteExact(input, n, rest);
      } else if mode == 2 {
        FourByteExact(input, n, rest);
      } else {
        BigExact(input, input[0] as nat / 4 + 4, n, rest);
      }
    }
  }

  /** What the four modes do. */
  lemma {:induction false} CompactMode(input: Bytes, width: nat)
    requires input != [] && width <= 16
    ensures var mode, k := input[0] as nat % 4, input[0] as nat / 4 + 4;
            && (mode == 0 ==> TakeCompact(input, width) == Some((input[0] as nat / 4, input[1..])))
            && (mode == 1 ==> TakeCompact(input, width) == InRange(TakeLe(input, 2), 0x40))
            && (mode == 2 ==> TakeCompact(input, width) == InRange(TakeLe(input, 4), 0x4000))
            && (mode == 3 && TakeCompact(input, width).Some? ==>
                  && k <= width && input[0] as nat == (k - 4) * 4 + 3
                  && TakeLe(input[1..], k) == TakeCompact(input, width)
                  && TakeCompact(input, width).value.0 >= LeastIn(k))
  {
  }

  // ---------------------------------------------------------------------------
  // Data
  // ---------------------------------------------------------------------------

  /** A skipped `Data` value is one. */
  lemma {:induction false} DataAt(input: Bytes, rest: Bytes) returns (d: Data)
    requires SkipData(input) == Some(rest)
    ensures DataOk(d) && input == EncodeData(d) + rest
  {
    var variant, body := input[0] as nat, input[1..];
    assert input == [input[0]] + body;
    if variant == 0 {
      d := Nothing;
      assert body[0..] == body;
    } else if variant <= 33 {
      d := Raw(body[..variant - 1]);
      assert body == body[..variant - 1] + body[variant - 1..];
      Associative([input[0]], body[..variant - 1], rest);
    } else {
      d := Hash(variant, body[..32]);
      assert body == body[..32] + body[32..];
      Associative([input[0]], body[..32], rest);
    }
  }

  lemma {:induction false} TextAt(input: Bytes, text: Bytes) returns (rest: Bytes)
    requires DecodeData(input) == Some(text)
    ensures 1 <= |text| <= 32 && input == EncodeData(Raw(text)) + rest
  {
    var body, n := input[1..], |text|;
    rest := body[n..];
    assert input == [input[0]] + body && body == text + rest;
    Associative([input[0]], text, rest);
  }

  /** A text is read exactly if it is 1 to 32 bytes and the input begins with its encoding. */
  lemma {:induction false} TextExact(input: Bytes, text: Bytes)
    ensures DecodeData(input) == Some(text) <==>
            1 <= |text| <= 32 && exists rest :: input == EncodeData(Raw(text)) + rest
  {
    if DecodeData(input) == Some(text) {
      var rest := TextAt(input, text);
    } else if 1 <= |text| <= 32 && exists rest :: input == EncodeData(Raw(text)) + rest {
      var rest :| input == EncodeData(Raw(text)) + rest;
      RawDecoded(text, rest);
    }
  }

  // ---------------------------------------------------------------------------
  // Judgements, deposit and additional fields
  // ---------------------------------------------------------------------------

  lemma {:induction false} BodyAt(input: Bytes, rest: Bytes) returns (j: Judgement)
    requires SkipJudgement(input) == Some(rest)
    ensures JudgementOk((0, j)) && input == JudgementBody(j) + rest
  {
    var variant, body := input[0] as nat, input[1..];
    assert input == [input[0]] + body;
    if variant == 1 {
      var amount := TakeCompact(body, 16).value.0;
      CompactExact(body, 16, amount, rest);
      j := FeePaid(amount);
      Associative([1], EncodeCompact(amount), rest);
    } else {
      j := Opinion(variant);
    }
  }

  lemma {:induction false} JudgementAt(input: Bytes, rest: Bytes) returns (j: (nat, Judgement))
    requires |input| >= 4 && SkipJudgement(input[4..]) == Some(rest)
    ensures JudgementOk(j) && input == EncodeJudgement(j) + rest
  {
    Powers();
    LeTaken(input, 4);
    var body := BodyAt(input[4..], rest);
    j := (LeValue(input[..4]), body);
    Associative(LeBytes(j.0, 4), JudgementBody(j.1), rest);
  }

  lemma {:induction false} JudgementsAt(input: Bytes, n: nat, rest: Bytes) returns (js: seq<(nat, Judgement)>)
    requires SkipJudgements(input, n) == Some(rest)
    ensures |js| == n && (forall k :: 0 <= k < n ==> JudgementOk(js[k])) && input == EncodeJudgements(js) + rest
    decreases n
  {
    if n == 0 {
      js := [];
      assert [] + rest == rest;
    } else {
      var next := SkipJudgement(input[4..]).value;
      var j := JudgementAt(input, next);
      var more := JudgementsAt(next, n - 1, rest);
      js := [j] + more;
      assert js[1..] == more;
      Associative(EncodeJudgement(j), EncodeJudgements(more), rest);
    }
  }

  lemma {:induction false} HeadAt(raw: Bytes, rest: Bytes) returns (js: seq<(nat, Judgement)>, deposit: nat)
    requires SkipHead(raw) == Some(rest)
    ensures HeadOk(js, deposit) && raw == EncodeHead(js, deposit) + rest
  {
    var (n, body) := TakeCompact(raw, 4).value;
    CompactExact(raw, 4, n, body);
    Powers();
    var after := SkipJudgements(body, n).value;
    js := JudgementsAt(body, n, after);
    LeTaken(after, 16);
    deposit := LeValue(after[..16]);
    HeadJoins(EncodeCompact(n), EncodeJudgements(js), LeBytes(deposit, 16), rest);
  }

  lemma HeadJoins(a: Bytes, b: Bytes, c: Bytes, d: Bytes)
    ensures a + (b + (c + d)) == (a + b + c) + d
  {
  }

  lemma {:induction false} PairAt(input: Bytes, next: Bytes) returns (pair: (Data, Data))
    requires SkipPair(input) == Some(next)
    ensures DataOk(pair.0) && DataOk(pair.1) && input == EncodeData(pair.0) + EncodeData(pair.1) + next
  {
    var second := SkipData(input).value;
    var x := DataAt(input, second);
    var y := DataAt(second, next);
    pair := (x, y);
    Associative(EncodeData(x), EncodeData(y), next);
  }

  lemma {:induction false} PairsJoin(pair: (Data, Data), more: seq<(Data, Data)>, rest: Bytes)
    requires DataOk(pair.0) && DataOk(pair.1) && PairsOk(more)
    ensures PairsOk([pair] + more)
    ensures EncodePairs([pair] + more) + rest == EncodeData(pair.0) + EncodeData(pair.1) + (EncodePairs(more) + rest)
  {
    var pairs := [pair] + more;
    assert pairs[1..] == more;
    Associative(EncodeData(pair.0) + EncodeData(pair.1), EncodePairs(more), rest);
  }

  lemma {:induction false} PairsCons(input: Bytes, next: Bytes, more: seq<(Data, Data)>, rest: Bytes)
    returns (pair: (Data, Data))
    requires SkipPair(input) == Some(next) && PairsOk(more) && next == EncodePairs(more) + rest
    ensures PairsOk([pair] + more) && input == EncodePairs([pair] + more) + rest
  {
    pair := PairAt(input, next);
    PairsJoin(pair, more, rest);
  }

  lemma {:induction false} PairsStep(input: Bytes, n: nat, rest: Bytes) returns (next: Bytes)
    requires n > 0 && SkipPairs(input, n) == Some(rest)
    ensures SkipPair(input) == Some(next) && SkipPairs(next, n - 1) == Some(rest)
  {
    next := SkipPair(input).value;
  }

  lemma NoPairs(rest: Bytes)
    ensures EncodePairs([]) + rest == rest
  {
  }

  lemma {:induction false} PairsAt(input: Bytes, n: nat, rest: Bytes) returns (pairs: seq<(Data, Data)>)
    requires SkipPairs(input, n) == Some(rest)
    ensures |pairs| == n && PairsOk(pairs) && input == EncodePairs(pairs) + rest
    decreases n
  {
    if n == 0 {
      pairs := [];
      NoPairs(rest);
    } else {
      var next := PairsStep(input, n, rest);
      var more := PairsAt(next, n - 1, rest);
      var pair := PairsCons(input, next, more, rest);
      pairs := [pair] + more;
    }
  }

  lemma {:induction false} AdditionalAt(input: Bytes, rest: Bytes) returns (pairs: seq<(Data, Data)>)
    requires SkipAdditional(input) == Some(rest)
    ensures PairsOk(pairs) && |pairs| <= MAX_ADDITIONAL && input == EncodeAdditional(pairs) + rest
  {
    var (n, body) := TakeCompact(input, 4).value;
    CompactExact(input, 4, n, body);
    pairs := PairsAt(body, n, rest);
    Associative(EncodeCompact(n), EncodePairs(pairs), rest);
  }

  // ---------------------------------------------------------------------------
  // Registrations
  // ---------------------------------------------------------------------------

  /** The bytes are a registration in the simple layout that displays `text`. */
  ghost predicate SimpleWith(raw: Bytes, text: Bytes) {
    && 1 <= |text| <= 32
    && exists js, deposit, tail ::
         HeadOk(js, deposit) && raw == EncodeHead(js, deposit) + (EncodeData(Raw(text)) + tail)
  }

  /** The bytes are a registration in the legacy layout, with at most 64 additional fields, that displays `text`. */
  ghost predicate LegacyWith(raw: Bytes, text: Bytes) {
    && 1 <= |text| <= 32
    && exists js, deposit, pairs, tail ::
         && HeadOk(js, deposit) && PairsOk(pairs) && |pairs| <= MAX_ADDITIONAL
         && raw == EncodeHead(js, deposit) + (EncodeAdditional(pairs) + (EncodeData(Raw(text)) + tail))
  }

  lemma {:induction false} SimpleExact(raw: Bytes, text: Bytes)
    ensures RegistrationDisplay(raw, false) == Some(text) <==> SimpleWith(raw, text)
  {
    if RegistrationDisplay(raw, false) == Some(text) {
      var body := SkipHead(raw).value;
      var js, deposit := HeadAt(raw, body);
      var tail := TextAt(body, text);
      assert raw == EncodeHead(js, deposit) + (EncodeData(Raw(text)) + tail);
    }
    if SimpleWith(raw, text) {
      var js, deposit, tail :|
        HeadOk(js, deposit) && raw == EncodeHead(js, deposit) + (EncodeData(Raw(text)) + tail);
      HeadSkipped(js, deposit, EncodeData(Raw(text)) + tail);
      RawDecoded(text, tail);
    }
  }

  lemma {:induction false} LegacyExact(raw: Bytes, text: Bytes)
    ensures RegistrationDisplay(raw, true) == Some(text) <==> LegacyWith(raw, text)
  {
    if RegistrationDisplay(raw, true) == Some(text) {
      var body := SkipHead(raw).value;
      var js, deposit := HeadAt(raw, body);
      var data := SkipAdditional(body).value;
      var pairs := AdditionalAt(body, data);
      var tail := TextAt(data, text);
      assert raw == EncodeHead(js, deposit) + (EncodeAdditional(pairs) + (EncodeData(Raw(text)) + tail));
    }
    if LegacyWith(raw, text) {
      var js, deposit, pairs, tail :|
        && HeadOk(js, deposit) && PairsOk(pairs) && |pairs| <= MAX_ADDITIONAL
        && raw == EncodeHead(js, deposit) + (EncodeAdditional(pairs) + (EncodeData(Raw(text)) + tail));
      var data := EncodeData(Raw(text)) + tail;
      HeadSkipped(js, deposit, EncodeAdditional(pairs) + data);
      AdditionalSkipped(pairs, data);
      RawDecoded(text, tail);
    }
  }

  /**
   The whole decoder, on all inputs: the name is `text` exactly if the bytes are a simple registration
   that displays it, or are no simple registration with a text at all and a legacy one that displays it.
   */
  lemma {:induction false} DisplayExact(raw: Bytes, text: Bytes)
    ensures DisplayName(raw) == Some(text) <==>
            SimpleWith(raw, text) || (LegacyWith(raw, text) && forall other :: !SimpleWith(raw, other))
  {
    SimpleExact(raw, text);
    LegacyExact(raw, text);
    forall other
      ensures RegistrationDisplay(raw, false) == Some(other) <==> SimpleWith(raw, other)
    {
      SimpleExact(raw, other);
    }
    if DisplayName(raw) == Some(text) && RegistrationDisplay(raw, false).None? {
      assert forall other :: !SimpleWith(raw, other);
    }
    if SimpleWith(raw, text) {
      assert RegistrationDisplay(raw, false) == Some(text);
    }
    if RegistrationDisplay(raw, false).Some? {
      assert SimpleWith(raw, RegistrationDisplay(raw, false).value);
    }
  }
}
