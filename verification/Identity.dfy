/**
 The display name inside an on-chain identity registration. Model of the decoding half of
 cli/src/commands/identity.rs; a display is kept as its bytes.
 */
module Identity {
  import opened Wrappers
  import opened Scale

  const MAX_ADDITIONAL: nat := 64

  /** List lengths are 32-bit numbers. */
  const COUNT_LIMIT: nat := 0x1_0000_0000

  /** Skip one `Data` value; the cursor after it. */
  function SkipData(input: Bytes): (r: Option<Bytes>)
    ensures r.Some? ==> |r.value| < |input|
  {
    if input == [] then None
    else
      var variant := input[0] as nat;
      var rest := input[1..];
      if variant > 37 then None
      else
        var skip := if variant == 0 then 0 else if variant <= 33 then variant - 1 else 32;
        if |rest| < skip then None else Some(rest[skip..])
  }

  /** The text of a `Data` value: raw and not empty. */
  function DecodeData(input: Bytes): Option<Bytes> {
    if input == [] then None
    else
      var variant := input[0] as nat;
      var rest := input[1..];
      if 2 <= variant <= 33 && variant - 1 <= |rest| then Some(rest[..variant - 1]) else None
  }

  function SkipJudgement(input: Bytes): Option<Bytes> {
    if input == [] then None
    else
      var variant := input[0] as nat;
      var rest := input[1..];
      if variant == 0 || 2 <= variant <= 6 then Some(rest)
      else if variant == 1 then
        var r := TakeCompact(rest, 16);
        if r.Some? then Some(r.value.1) else None
      else None
  }

  function SkipJudgements(input: Bytes, n: nat): Option<Bytes>
    decreases n
  {
    if n == 0 then Some(input)
    else
      var index := TakeLe(input, 4);
      if index.None? then None
      else
        var rest := SkipJudgement(index.value.1);
        if rest.None? then None else SkipJudgements(rest.value, n - 1)
  }

  function SkipPair(input: Bytes): (r: Option<Bytes>)
    ensures r.Some? ==> |r.value| < |input|
  {
    var first := SkipData(input);
    if first.None? then None else SkipData(first.value)
  }

  function SkipPairs(input: Bytes, n: nat): Option<Bytes>
    decreases |input|
  {
    if n == 0 then Some(input)
    else
      var rest := SkipPair(input);
      if rest.None? then None else SkipPairs(rest.value, n - 1)
  }

  /** Judgements and deposit, common to both layouts. */
  function SkipHead(raw: Bytes): Option<Bytes> {
    var len := TakeCompact(raw, 4);
    if len.None? then None
    else
      var rest := SkipJudgements(len.value.1, len.value.0);
      if rest.None? then None
      else
        var deposit := TakeLe(rest.value, 16);
        if deposit.None? then None else Some(deposit.value.1)
  }

  function SkipAdditional(input: Bytes): Option<Bytes> {
    var len := TakeCompact(input, 4);
    if len.None? || len.value.0 > MAX_ADDITIONAL then None else SkipPairs(len.value.1, len.value.0)
  }

  function RegistrationDisplay(raw: Bytes, hasAdditional: bool): Option<Bytes> {
    var head := SkipHead(raw);
    if head.None? then None
    else if !hasAdditional then DecodeData(head.value)
    else
      var rest := SkipAdditional(head.value);
      if rest.None? then None else DecodeData(rest.value)
  }

  /** Try the simple layout, then the legacy one. */
  function DisplayName(raw: Bytes): Option<Bytes> {
    var simple := RegistrationDisplay(raw, false);
    if simple.Some? then simple else RegistrationDisplay(raw, true)
  }

  /** The decoder as the program runs it, moving a cursor through the bytes in loops. */
  method DecodeRegistrationDisplay(raw: Bytes, hasAdditional: bool) returns (display: Option<Bytes>)
    ensures display == RegistrationDisplay(raw, hasAdditional)
  {
    var len := TakeCompact(raw, 4);
    if len.None? {
      return None;
    }
    var input := len.value.1;
    var n := len.value.0;
    for i := 0 to n
      invariant SkipJudgements(input, n - i) == SkipJudgements(len.value.1, n)
    {
      var index := TakeLe(input, 4);
      if index.None? {
        return None;
      }
      var rest := SkipJudgement(index.value.1);
      if rest.None? {
        return None;
      }
      input := rest.value;
    }
    var deposit := TakeLe(input, 16);
    if deposit.None? {
      return None;
    }
    input := deposit.value.1;
    if hasAdditional {
      var rest := SkipAdditionalFields(input);
      if rest.None? {
        return None;
      }
      input := rest.value;
    }
    display := DecodeData(input);
  }

  method SkipAdditionalFields(start: Bytes) returns (rest: Option<Bytes>)
    ensures rest == SkipAdditional(start)
  {
    var len := TakeCompact(start, 4);
    if len.None? || len.value.0 > MAX_ADDITIONAL {
      return None;
    }
    rest := SkipFields(len.value.1, len.value.0);
  }

  method SkipFields(start: Bytes, n: nat) returns (rest: Option<Bytes>)
    ensures rest == SkipPairs(start, n)
  {
    var input := start;
    for i := 0 to n
      invariant SkipPairs(input, n - i) == SkipPairs(start, n)
    {
      var next := SkipTwo(input);
      if next.None? {
        return None;
      }
      input := next.value;
    }
    rest := Some(input);
  }

  method SkipTwo(input: Bytes) returns (rest: Option<Bytes>)
    ensures rest == SkipPair(input)
  {
    var first := SkipData(input);
    if first.None? {
      return None;
    }
    rest := SkipData(first.value);
  }

  // ---------------------------------------------------------------------------
  // The encodings
  // ---------------------------------------------------------------------------

  datatype Judgement = Opinion(kind: nat) | FeePaid(amount: nat)

  datatype Data = Nothing | Raw(bytes: Bytes) | Hash(kind: nat, digest: Bytes)

  predicate JudgementOk(j: (nat, Judgement)) {
    && j.0 < 0x1_0000_0000
    && match j.1
       case Opinion(kind) => kind == 0 || 2 <= kind <= 6
       case FeePaid(amount) => BigWidth(amount, 4) <= 16
  }

  predicate DataOk(d: Data) {
    match d
    case Nothing => true
    case Raw(bytes) => |bytes| <= 32
    case Hash(kind, digest) => 34 <= kind <= 37 && |digest| == 32
  }

  function EncodeData(d: Data): (b: Bytes)
    requires DataOk(d)
    ensures |b| >= 1
  {
    match d
    case Nothing => [0]
    case Raw(bytes) => [(|bytes| + 1) as byte] + bytes
    case Hash(kind, digest) => [kind as byte] + digest
  }

  function JudgementBody(j: Judgement): Bytes
    requires JudgementOk((0, j))
  {
    match j
    case Opinion(kind) => [kind as byte]
    case FeePaid(amount) => [1] + EncodeCompact(amount)
  }

  function EncodeJudgement(j: (nat, Judgement)): Bytes
    requires JudgementOk(j)
  {
    LeBytes(j.0, 4) + JudgementBody(j.1)
  }

  function EncodeJudgements(js: seq<(nat, Judgement)>): Bytes
    requires forall k :: 0 <= k < |js| ==> JudgementOk(js[k])
  {
    if js == [] then [] else EncodeJudgement(js[0]) + EncodeJudgements(js[1..])
  }

  predicate HeadOk(js: seq<(nat, Judgement)>, deposit: nat) {
    |js| < 0x1_0000_0000 && deposit < Pow256(16) && forall k :: 0 <= k < |js| ==> JudgementOk(js[k])
  }

  function EncodeHead(js: seq<(nat, Judgement)>, deposit: nat): Bytes
    requires HeadOk(js, deposit)
  {
    SmallWidth(|js|);
    EncodeCompact(|js|) + EncodeJudgements(js) + LeBytes(deposit, 16)
  }

  predicate PairsOk(pairs: seq<(Data, Data)>) {
    forall k :: 0 <= k < |pairs| ==> DataOk(pairs[k].0) && DataOk(pairs[k].1)
  }

  function EncodePairs(pairs: seq<(Data, Data)>): Bytes
    requires PairsOk(pairs)
  {
    if pairs == [] then [] else EncodeData(pairs[0].0) + EncodeData(pairs[0].1) + EncodePairs(pairs[1..])
  }

  /** Additional fields as the legacy layout has them: a count and the pairs. */
  function EncodeAdditional(pairs: seq<(Data, Data)>): Bytes
    requires PairsOk(pairs) && |pairs| < COUNT_LIMIT
  {
    SmallWidth(|pairs|);
    EncodeCompact(|pairs|) + EncodePairs(pairs)
  }

  // ---------------------------------------------------------------------------
  // Skipping undoes encoding
  // ---------------------------------------------------------------------------

  lemma DataSkipped(d: Data, rest: Bytes)
    requires DataOk(d)
    ensures SkipData(EncodeData(d) + rest) == Some(rest)
  {
    var e := EncodeData(d);
    assert (e + rest)[1..] == e[1..] + rest;
    assert (e[1..] + rest)[|e| - 1..] == rest;
  }

  lemma RawDecoded(bytes: Bytes, rest: Bytes)
    requires |bytes| <= 32
    ensures DecodeData(EncodeData(Raw(bytes)) + rest) == if bytes == [] then None else Some(bytes)
  {
    var e := EncodeData(Raw(bytes));
    assert (e + rest)[1..] == bytes + rest;
    assert (bytes + rest)[..|bytes|] == bytes;
  }

  lemma BodySkipped(j: Judgement, rest: Bytes)
    requires JudgementOk((0, j))
    ensures SkipJudgement(JudgementBody(j) + rest) == Some(rest)
  {
    match j {
      case Opinion(kind) =>
        assert ([kind as byte] + rest)[1..] == rest;
      case FeePaid(amount) =>
        FeeSkipped(EncodeCompact(amount), amount, rest) by {
          CompactRoundTrip(amount, 16, rest);
        }
    }
  }

  lemma FeeSkipped(fee: Bytes, amount: nat, rest: Bytes)
    requires TakeCompact(fee + rest, 16) == Some((amount, rest))
    ensures SkipJudgement([1] + fee + rest) == Some(rest)
  {
    assert ([1] + fee + rest)[1..] == fee + rest;
  }

  lemma JudgementSkipped(j: (nat, Judgement), rest: Bytes)
    requires JudgementOk(j)
    ensures var index := TakeLe(EncodeJudgement(j) + rest, 4);
            index.Some? && SkipJudgement(index.value.1) == Some(rest)
  {
    Powers();
    var body := JudgementBody(j.1);
    assert EncodeJudgement(j) + rest == LeBytes(j.0, 4) + (body + rest);
    TakeLeDecodes(j.0, 4, body + rest);
    BodySkipped(j.1, rest);
  }

  lemma JudgementSkippedOnce(j: (nat, Judgement), next: Bytes, n: nat)
    requires JudgementOk(j)
    ensures SkipJudgements(EncodeJudgement(j) + next, n + 1) == SkipJudgements(next, n)
  {
    JudgementSkipped(j, next);
  }

  lemma {:induction false} JudgementsSkipped(js: seq<(nat, Judgement)>, rest: Bytes)
    requires forall k :: 0 <= k < |js| ==> JudgementOk(js[k])
    ensures SkipJudgements(EncodeJudgements(js) + rest, |js|) == Some(rest)
  {
    if js == [] {
      assert [] + rest == rest;
    } else {
      var head, tail := EncodeJudgement(js[0]), EncodeJudgements(js[1..]);
      JudgementSkippedOnce(js[0], tail + rest, |js| - 1);
      JudgementsSkipped(js[1..], rest);
      Associative(head, tail, rest);
    }
  }

  lemma HeadSkipped(js: seq<(nat, Judgement)>, deposit: nat, rest: Bytes)
    requires HeadOk(js, deposit)
    ensures SkipHead(EncodeHead(js, deposit) + rest) == Some(rest)
  {
    SmallWidth(|js|);
    var tail := LeBytes(deposit, 16) + rest;
    assert EncodeHead(js, deposit) + rest == EncodeCompact(|js|) + (EncodeJudgements(js) + tail);
    CompactRoundTrip(|js|, 4, EncodeJudgements(js) + tail);
    JudgementsSkipped(js, tail);
    TakeLeDecodes(deposit, 16, rest);
  }

  lemma PairSkipped(pair: (Data, Data), next: Bytes)
    requires DataOk(pair.0) && DataOk(pair.1)
    ensures SkipData(EncodeData(pair.0) + EncodeData(pair.1) + next) == Some(EncodeData(pair.1) + next)
    ensures SkipData(EncodeData(pair.1) + next) == Some(next)
  {
    var second := EncodeData(pair.1) + next;
    assert EncodeData(pair.0) + EncodeData(pair.1) + next == EncodeData(pair.0) + second;
    DataSkipped(pair.0, second);
    DataSkipped(pair.1, next);
  }

  lemma PairsSkippedOnce(pair: (Data, Data), next: Bytes, n: nat)
    requires DataOk(pair.0) && DataOk(pair.1)
    ensures SkipPairs(EncodeData(pair.0) + EncodeData(pair.1) + next, n + 1) == SkipPairs(next, n)
  {
    PairSkipped(pair, next);
  }

  lemma {:induction false} PairsSkipped(pairs: seq<(Data, Data)>, rest: Bytes)
    requires PairsOk(pairs)
    ensures SkipPairs(EncodePairs(pairs) + rest, |pairs|) == Some(rest)
  {
    if pairs == [] {
      assert [] + rest == rest;
    } else {
      var head := EncodeData(pairs[0].0) + EncodeData(pairs[0].1);
      var tail := EncodePairs(pairs[1..]);
      PairsSkippedOnce(pairs[0], tail + rest, |pairs| - 1);
      PairsSkipped(pairs[1..], rest);
      assert (head + tail) + rest == head + (tail + rest);
    }
  }

  lemma AdditionalSkipped(pairs: seq<(Data, Data)>, rest: Bytes)
    requires PairsOk(pairs) && |pairs| <= MAX_ADDITIONAL
    ensures SkipAdditional(EncodeAdditional(pairs) + rest) == Some(rest)
  {
    SmallWidth(|pairs|);
    assert EncodeAdditional(pairs) + rest == EncodeCompact(|pairs|) + (EncodePairs(pairs) + rest);
    CompactRoundTrip(|pairs|, 4, EncodePairs(pairs) + rest);
    PairsSkipped(pairs, rest);
  }

  // ---------------------------------------------------------------------------
  // Round trips
  // ---------------------------------------------------------------------------

  /** What both attempts make of the bytes after judgements and deposit. */
  function NameAfterDeposit(rest: Bytes): Option<Bytes> {
    var simple := DecodeData(rest);
    if simple.Some? then simple
    else
      var after := SkipAdditional(rest);
      if after.None? then None else DecodeData(after.value)
  }

  lemma NameAfterHead(js: seq<(nat, Judgement)>, deposit: nat, rest: Bytes)
    requires HeadOk(js, deposit)
    ensures DisplayName(EncodeHead(js, deposit) + rest) == NameAfterDeposit(rest)
  {
    HeadSkipped(js, deposit, rest);
  }

  /** The simple layout: any judgements, deposit and tail; a display of 1 to 32 bytes comes back. */
  lemma SimpleRoundTrip(js: seq<(nat, Judgement)>, deposit: nat, display: Bytes, tail: Bytes)
    requires HeadOk(js, deposit) && 1 <= |display| <= 32
    ensures DisplayName(EncodeHead(js, deposit) + (EncodeData(Raw(display)) + tail)) == Some(display)
  {
    NameAfterHead(js, deposit, EncodeData(Raw(display)) + tail);
    RawDecoded(display, tail);
  }

  predicate Textless(d: Data) {
    match d
    case Raw(bytes) => bytes == []
    case _ => true
  }

  /** The name read after `n` pairs. */
  function AfterPairs(input: Bytes, n: nat): Option<Bytes> {
    var rest := SkipPairs(input, n);
    if rest.None? then None else DecodeData(rest.value)
  }

  /** What the second attempt makes of a simple registration whose display has no text. */
  function Fallback(d: Data, tail: Bytes): Option<Bytes>
    requires Textless(d)
  {
    match d
    case Nothing => DecodeData(tail)
    case Raw(_) => if tail != [] && tail[0] == 1 then AfterPairs(tail[1..], 64) else None
    case Hash(kind, digest) => if kind == 36 then AfterPairs(digest + tail, 9) else None
  }

  /**
   A simple registration whose display has no text should have no name. It is read once more as a
   legacy one, with the tag of the display taken for a count of additional fields: none for an
   absent display, so the next field is returned; 9 for a hash of kind 36, whose digest is then
   read as fields; 64 for an empty text before a byte 1. In all other cases there is no name.
   */
  lemma MissingDisplay(js: seq<(nat, Judgement)>, deposit: nat, display: Data, tail: Bytes)
    requires HeadOk(js, deposit) && DataOk(display) && Textless(display)
    ensures DisplayName(EncodeHead(js, deposit) + (EncodeData(display) + tail)) == Fallback(display, tail)
  {
    NameAfterHead(js, deposit, EncodeData(display) + tail);
    TextlessRead(display, tail);
  }

  lemma TextlessRead(display: Data, tail: Bytes)
    requires DataOk(display) && Textless(display)
    ensures NameAfterDeposit(EncodeData(display) + tail) == Fallback(display, tail)
  {
    match display {
      case Nothing => NothingRead(tail);
      case Raw(bytes) =>
        assert EncodeData(display) == [1];
        EmptyRead(tail);
      case Hash(kind, digest) =>
        Associative([kind as byte], digest, tail);
        HashRead(kind, digest, tail);
    }
  }

  lemma NothingRead(tail: Bytes)
    ensures NameAfterDeposit([0] + tail) == DecodeData(tail)
  {
    SmallWidth(0);
    AdditionalSkipped([], tail);
    assert EncodeAdditional([]) == [0];
  }

  /** A first byte of 1 modulo 4 starts a two-byte count. */
  lemma TwoByteCount(input: Bytes)
    requires input != [] && input[0] as nat % 4 == 1
    ensures |input| == 1 ==> TakeCompact(input, 4) == None
    ensures |input| >= 2 ==>
              var n := input[0] as nat / 4 + 64 * input[1] as nat;
              TakeCompact(input, 4) == if n < 64 then None else Some((n, input[2..]))
  {
    SmallModes(input, 4);
    if |input| >= 2 {
      TwoBytes(input[..2]);
      var n := input[0] as nat / 4 + 64 * input[1] as nat;
      assert (input[0] as nat + 256 * input[1] as nat) / 4 == n;
    }
  }

  lemma TwoBytes(two: Bytes)
    requires |two| == 2
    ensures LeValue(two) == two[0] as nat + 256 * two[1] as nat
  {
    var one := two[1..];
    assert one[1..] == [];
    assert LeValue(one) == one[0] as nat + 256 * LeValue(one[1..]);
  }

  /** The tag of an empty text starts a two-byte count. */
  lemma EmptyRead(tail: Bytes)
    ensures NameAfterDeposit([1] + tail) == Fallback(Raw([]), tail)
  {
    var input := [1] + tail;
    TwoByteCount(input);
    if tail != [] {
      assert input[2..] == tail[1..];
    }
  }

  /** The tag of a hash starts a count: of 9 for kind 36, and otherwise of too many fields or none at all. */
  lemma HashRead(kind: nat, digest: Bytes, tail: Bytes)
    requires DataOk(Hash(kind, digest))
    ensures NameAfterDeposit([kind as byte] + (digest + tail)) == Fallback(Hash(kind, digest), tail)
  {
    var input := [kind as byte] + (digest + tail);
    assert input[1..] == digest + tail;
    HashCount(input, kind);
  }

  lemma HashCount(input: Bytes, kind: nat)
    requires 34 <= kind <= 37 && input != [] && input[0] as nat == kind
    ensures kind == 36 ==> TakeCompact(input, 4) == Some((9, input[1..]))
    ensures kind != 36 ==> TakeCompact(input, 4).None? || TakeCompact(input, 4).value.0 > MAX_ADDITIONAL
  {
    SmallModes(input, 4);
    if kind == 37 {
      TwoByteCount(input);
    }
  }

  function Zeros(n: nat): Bytes {
    seq(n, _ => 0)
  }

  lemma ZeroPairSkipped(input: Bytes)
    requires |input| >= 2 && input[0] == 0 == input[1]
    ensures SkipPair(input) == Some(input[2..])
  {
    assert input[1..][1..] == input[2..];
  }

  /** Absent values skip by the pair. */
  lemma {:induction false} ZerosSkipped(n: nat, rest: Bytes)
    requires n > 0
    ensures SkipPairs(Zeros(2 * n) + rest, n) == Some(rest)
    decreases n
  {
    var input := Zeros(2 * n) + rest;
    ZeroPairSkipped(input);
    if n == 1 {
      assert input[2..] == rest;
    } else {
      assert input[2..] == Zeros(2 * (n - 1)) + rest;
      ZerosSkipped(n - 1, rest);
    }
  }

  /** A hashed display out of which a name is read: these are bytes of the digest. */
  lemma HashMisread()
    ensures var digest := Zeros(18) + ([3, 65, 66] + Zeros(11));
            DisplayName(EncodeHead([], 0) + (EncodeData(Hash(36, digest)) + [0])) == Some([65, 66])
  {
    var rest: Bytes := [3, 65, 66] + Zeros(11);
    MissingDisplay([], 0, Hash(36, Zeros(18) + rest), [0]);
    Associative(Zeros(18), rest, [0]);
    DigestRead(rest + [0]);
  }

  lemma DigestRead(rest: Bytes)
    requires |rest| >= 3 && rest[..3] == [3, 65, 66]
    ensures AfterPairs(Zeros(18) + rest, 9) == Some([65, 66])
  {
    ZerosSkipped(9, rest);
    NameRead(rest);
  }

  lemma NameRead(rest: Bytes)
    requires |rest| >= 3 && rest[..3] == [3, 65, 66]
    ensures DecodeData(rest) == Some([65, 66])
  {
    assert rest[0] == rest[..3][0] && rest[1..][..2] == rest[..3][1..];
  }

  /** The first byte of the encoded count `n`. */
  function CountTag(n: nat): nat {
    if n < 0x40 then 4 * n
    else if n < 0x4000 then 4 * (n % 64) + 1
    else if n < 0x4000_0000 then 4 * (n % 64) + 2
    else 3
  }

  /** The bytes that the simple reading takes for a name when a count `n` precedes `rest`. */
  function WindowOf(n: nat, rest: Bytes): Option<Bytes>
    requires n < COUNT_LIMIT
  {
    SmallWidth(n);
    var tag := CountTag(n);
    var bytes := if n < 0x40 then rest else EncodeCompact(n)[1..] + rest;
    if 2 <= tag <= 33 && tag - 1 <= |bytes| then Some(bytes[..tag - 1]) else None
  }

  /** The window of a legacy registration. */
  function Window(pairs: seq<(Data, Data)>, display: Bytes, tail: Bytes): Option<Bytes>
    requires PairsOk(pairs) && |pairs| < COUNT_LIMIT && |display| <= 32
  {
    WindowOf(|pairs|, EncodePairs(pairs) + (EncodeData(Raw(display)) + tail))
  }

  lemma Associative(a: Bytes, b: Bytes, c: Bytes)
    ensures a + b + c == a + (b + c)
  {
  }

  lemma LowByte(n: nat, k: nat)
    requires k < 4
    ensures (4 * n + k) % 256 == 4 * (n % 64) + k
  {
    var q, m := n / 64, n % 64;
    assert 4 * n + k == 256 * q + (4 * m + k);
  }

  lemma FirstOfCount(n: nat)
    requires n < COUNT_LIMIT
    ensures BigWidth(n, 4) == 4 && |EncodeCompact(n)| >= 1 && EncodeCompact(n)[0] as nat == CountTag(n)
  {
    SmallWidth(n);
    LowByte(n, 1);
    LowByte(n, 2);
  }

  /** Reading the count of a list as if it were a `Data` value. */
  lemma {:induction false} CountReadAsData(n: nat, rest: Bytes)
    requires n < COUNT_LIMIT
    ensures BigWidth(n, 4) == 4
    ensures DecodeData(EncodeCompact(n) + rest) == WindowOf(n, rest)
  {
    FirstOfCount(n);
    var e := EncodeCompact(n);
    TailAfterFirst(e, rest);
    DataByTag(e + rest, CountTag(n), if n < 0x40 then rest else e[1..] + rest);
  }

  lemma TailAfterFirst(e: Bytes, rest: Bytes)
    requires e != []
    ensures (e + rest)[1..] == if |e| == 1 then rest else e[1..] + rest
  {
  }

  lemma DataByTag(input: Bytes, tag: nat, bytes: Bytes)
    requires input != [] && input[0] as nat == tag && input[1..] == bytes
    ensures DecodeData(input) == if 2 <= tag <= 33 && tag - 1 <= |bytes| then Some(bytes[..tag - 1]) else None
  {
  }

  /** What the decoder makes of a legacy registration with that window and that many fields. */
  function LegacyName(window: Option<Bytes>, fields: nat, display: Bytes): Option<Bytes> {
    if window.Some? then window else if fields <= MAX_ADDITIONAL then Some(display) else None
  }

  /**
   The legacy layout, for every list of additional fields: the result is the window if there is
   one, otherwise the display, or nothing if there are more than 64 fields. So the display comes
   back exactly when there are at most 64 fields and no window, or the window happens to equal it;
   in particular for no field and for 9 to 64.
   */
  lemma LegacyRoundTrip(js: seq<(nat, Judgement)>, deposit: nat, pairs: seq<(Data, Data)>, display: Bytes, tail: Bytes)
    requires HeadOk(js, deposit) && PairsOk(pairs) && |pairs| < COUNT_LIMIT && 1 <= |display| <= 32
    ensures var body := EncodeAdditional(pairs) + (EncodeData(Raw(display)) + tail);
            var name := DisplayName(EncodeHead(js, deposit) + body);
            var window := Window(pairs, display, tail);
            && name == LegacyName(window, |pairs|, display)
            && (name == Some(display) <==> (window.None? && |pairs| <= MAX_ADDITIONAL) || window == Some(display))
            && (|pairs| == 0 || 9 <= |pairs| <= 64 ==> name == Some(display))
  {
    var window := Window(pairs, display, tail);
    LegacyRead(js, deposit, pairs, display, tail);
    NoWindow(|pairs|, EncodePairs(pairs) + (EncodeData(Raw(display)) + tail));
    DisplayIff(window, |pairs|, display);
  }

  lemma NoWindow(n: nat, rest: Bytes)
    requires n < COUNT_LIMIT
    ensures n == 0 || 9 <= n <= 64 ==> WindowOf(n, rest) == None
  {
  }

  lemma DisplayIff(window: Option<Bytes>, fields: nat, display: Bytes)
    ensures LegacyName(window, fields, display) == Some(display) <==>
            (window.None? && fields <= MAX_ADDITIONAL) || window == Some(display)
  {
  }

  lemma LegacyRead(js: seq<(nat, Judgement)>, deposit: nat, pairs: seq<(Data, Data)>, display: Bytes, tail: Bytes)
    requires HeadOk(js, deposit) && PairsOk(pairs) && |pairs| < COUNT_LIMIT && 1 <= |display| <= 32
    ensures DisplayName(EncodeHead(js, deposit) + (EncodeAdditional(pairs) + (EncodeData(Raw(display)) + tail)))
         == LegacyName(Window(pairs, display, tail), |pairs|, display)
  {
    NameAfterHead(js, deposit, EncodeAdditional(pairs) + (EncodeData(Raw(display)) + tail));
    LegacyBody(pairs, display, tail);
  }

  lemma LegacyBody(pairs: seq<(Data, Data)>, display: Bytes, tail: Bytes)
    requires PairsOk(pairs) && |pairs| < COUNT_LIMIT && 1 <= |display| <= 32
    ensures NameAfterDeposit(EncodeAdditional(pairs) + (EncodeData(Raw(display)) + tail)) ==
            LegacyName(Window(pairs, display, tail), |pairs|, display)
  {
    var body := EncodeData(Raw(display)) + tail;
    WindowRead(pairs, display, tail);
    if |pairs| <= MAX_ADDITIONAL {
      AdditionalSkipped(pairs, body);
      RawDecoded(display, tail);
    } else {
      TooManyFields(pairs, body);
    }
  }

  /** A list of more than 64 fields is refused at its count. */
  lemma TooManyFields(pairs: seq<(Data, Data)>, rest: Bytes)
    requires PairsOk(pairs) && MAX_ADDITIONAL < |pairs| < COUNT_LIMIT
    ensures SkipAdditional(EncodeAdditional(pairs) + rest) == None
  {
    SmallWidth(|pairs|);
    Associative(EncodeCompact(|pairs|), EncodePairs(pairs), rest);
    CompactRoundTrip(|pairs|, 4, EncodePairs(pairs) + rest);
  }

  lemma WindowRead(pairs: seq<(Data, Data)>, display: Bytes, tail: Bytes)
    requires PairsOk(pairs) && |pairs| < COUNT_LIMIT && |display| <= 32
    ensures DecodeData(EncodeAdditional(pairs) + (EncodeData(Raw(display)) + tail)) == Window(pairs, display, tail)
  {
    var body := EncodeData(Raw(display)) + tail;
    CountReadAsData(|pairs|, EncodePairs(pairs) + body);
    Associative(EncodeCompact(|pairs|), EncodePairs(pairs), body);
  }

  lemma {:induction false} PairsLength(pairs: seq<(Data, Data)>)
    requires PairsOk(pairs)
    ensures |EncodePairs(pairs)| >= 2 * |pairs|
    decreases |pairs|
  {
    if pairs != [] {
      PairsLength(pairs[1..]);
    }
  }

  /** Which lists of more than 64 fields have a window: 65 to 72 fields, and so on by the count alone. */
  lemma LongListWindow(pairs: seq<(Data, Data)>, display: Bytes, tail: Bytes)
    requires PairsOk(pairs) && MAX_ADDITIONAL < |pairs| < COUNT_LIMIT && |display| <= 32
    ensures var n := |pairs|;
            Window(pairs, display, tail).Some? <==>
              || (n < 0x4000 && 1 <= n % 64 <= 8)
              || (0x4000 <= n < 0x4000_0000 && n % 64 <= 7)
              || n >= 0x4000_0000
  {
    PairsLength(pairs);
  }

  /** The window of a list of 65 to 16383 fields: the second byte of the count and the bytes after it. */
  lemma TwoByteWindow(n: nat, rest: Bytes)
    requires 64 < n < 0x4000 && 1 <= n % 64 <= 8 && 4 * (n % 64) - 1 <= |rest|
    ensures WindowOf(n, rest) == Some([(n / 64) as byte] + rest[..4 * (n % 64) - 1])
  {
    SmallWidth(n);
    var e := EncodeCompact(n);
    SecondOfCount(n);
    var b, k := (n / 64) as byte, 4 * (n % 64) - 1;
    assert e[1..] == [b];
    assert ([b] + rest)[..k + 1] == [b] + rest[..k];
  }

  lemma SecondOfCount(n: nat)
    requires 64 <= n < 0x4000
    ensures LeBytes(4 * n + 1, 2)[1] as nat == n / 64 && |LeBytes(4 * n + 1, 2)| == 2
  {
    var m := 4 * n + 1;
    assert LeBytes(m, 2)[1] == LeBytes(m / 256, 1)[0];
    assert m / 256 == n / 64;
  }

  /** One additional field suffices to be misread: here the name comes out as bytes of that field. */
  lemma LegacyMisread()
    ensures DisplayName(EncodeHead([], 0) + (EncodeAdditional([(Raw([7, 7]), Nothing)]) + (EncodeData(Raw([65])) + [])))
            == Some([3, 7, 7])
  {
    var pairs := [(Raw([7, 7]), Nothing)];
    LegacyRoundTrip([], 0, pairs, [65], []);
    MisreadWindow();
  }

  lemma MisreadWindow()
    ensures Window([(Raw([7, 7]), Nothing)], [65], []) == Some([3, 7, 7])
  {
    var pairs := [(Raw([7, 7]), Nothing)];
    assert pairs[1..] == [];
    assert EncodePairs(pairs) == [3, 7, 7, 0];
    var rest := EncodePairs(pairs) + (EncodeData(Raw([65])) + []);
    assert rest[..3] == [3, 7, 7];
  }

  function Nothings(n: nat): seq<(Data, Data)> {
    seq(n, _ => (Nothing, Nothing))
  }

  lemma {:induction false} NothingsEncoded(n: nat)
    ensures PairsOk(Nothings(n)) && EncodePairs(Nothings(n)) == Zeros(2 * n)
    decreases n
  {
    if n > 0 {
      NothingsEncoded(n - 1);
      assert Nothings(n)[1..] == Nothings(n - 1);
      assert [0] + [0] + Zeros(2 * (n - 1)) == Zeros(2 * n);
    }
  }

  /** So do 65 fields: the name is the second byte of their count and three bytes of the fields. */
  lemma LongLegacyMisread(js: seq<(nat, Judgement)>, deposit: nat, display: Bytes, tail: Bytes)
    requires HeadOk(js, deposit) && 1 <= |display| <= 32
    ensures PairsOk(Nothings(65))
    ensures var body := EncodeAdditional(Nothings(65)) + (EncodeData(Raw(display)) + tail);
            DisplayName(EncodeHead(js, deposit) + body) == Some([1, 0, 0, 0])
  {
    NothingsEncoded(65);
    LegacyRead(js, deposit, Nothings(65), display, tail);
    LongWindow(EncodeData(Raw(display)) + tail);
  }

  lemma LongWindow(rest: Bytes)
    ensures WindowOf(65, Zeros(130) + rest) == Some([1, 0, 0, 0])
  {
    var bytes := Zeros(130) + rest;
    TwoByteWindow(65, bytes);
    var zeros: Bytes := [0, 0, 0];
    assert 65 % 64 == 1 && bytes[..3] == zeros;
    assert [1] + zeros == [1, 0, 0, 0];
  }
}
