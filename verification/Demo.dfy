/**
  The demo pipeline: messages, their checksum, the producer's send loop and the consumer's
  drain loop with its error count.
*/
module Demo {
  import opened Machine
  import opened System
  import opened Invariant
  import opened RingSteps
  import opened Safety
  import opened Scenarios
  import opened Blocking
  import opened Calls

  datatype Message = Message(seqNo: nat, sentNs: nat, payload: seq<nat>, checksum: nat, reserved: nat)

  /** The fields fit their widths. */
  predicate WellFormed(m: Message) {
    && m.seqNo < U64 && m.sentNs < U64 && m.checksum < U32 && m.reserved < U32
    && |m.payload| == 6 && forall i :: 0 <= i < 6 ==> m.payload[i] < U32
  }

  // ---------------------------------------------------------------- checksum

  /** Bitwise exclusive or. */
  function Xor(x: nat, y: nat): (z: nat)
    decreases x + y
  {
    if x == 0 then y else if y == 0 then x else (x + y) % 2 + 2 * Xor(x / 2, y / 2)
  }

  function TimesPrime(x: nat): nat { x * 16777619 % U32 }

  /** One step of the hash: h = (h ^ v) * 16777619 in 32 bits. */
  function Mix(h: nat, v: nat): nat { TimesPrime(Xor(h, v)) }

  const FNV_OFFSET: nat := 2166136261

  function Fold(h: nat, words: seq<nat>): nat
    decreases |words|
  {
    if words == [] then h else Fold(Mix(h, words[0]), words[1..])
  }

  function Lo(x: nat): nat { x % U32 }
  function Hi(x: nat): nat { x / U32 }

  function HashedWords(m: Message): seq<nat> { [Lo(m.seqNo), Hi(m.seqNo)] + m.payload }

  function Checksum(m: Message): nat { Fold(FNV_OFFSET, HashedWords(m)) }

  lemma {:induction false} FoldAppend(h: nat, words: seq<nat>, v: nat)
    ensures Fold(h, words + [v]) == Mix(Fold(h, words), v)
    decreases |words|
  {
    if words == [] {
      assert [v][1..] == [];
    } else {
      assert (words + [v])[1..] == words[1..] + [v];
      FoldAppend(Mix(h, words[0]), words[1..], v);
    }
  }

  /** checksumOf(): seq low, seq high, then the payload words, mixed in that order. */
  method ChecksumOf(m: Message) returns (h: nat)
    ensures h == Checksum(m)
  {
    h := Mix(Mix(FNV_OFFSET, Lo(m.seqNo)), Hi(m.seqNo));
    var head := [Lo(m.seqNo), Hi(m.seqNo)];
    FoldTwo(FNV_OFFSET, Lo(m.seqNo), Hi(m.seqNo));
    assert head + m.payload[..0] == head;
    for i := 0 to |m.payload|
      invariant h == Fold(FNV_OFFSET, head + m.payload[..i])
    {
      FoldAppend(FNV_OFFSET, head + m.payload[..i], m.payload[i]);
      assert head + m.payload[..i + 1] == (head + m.payload[..i]) + [m.payload[i]];
      h := Mix(h, m.payload[i]);
    }
    assert m.payload[..|m.payload|] == m.payload;
  }

  lemma FoldTwo(h: nat, u: nat, v: nat)
    ensures Fold(h, [u, v]) == Mix(Mix(h, u), v)
  {
    FoldAppend(h, [], u);
    FoldAppend(h, [u], v);
    assert [] + [u] == [u] && [u] + [v] == [u, v];
  }

  predicate AreWords(words: seq<nat>) { forall i :: 0 <= i < |words| ==> words[i] < U32 }

  /** One more than the largest value of `bits` bits. */
  function Pow2(bits: nat): (p: nat)
    ensures p >= 1
    decreases bits
  {
    if bits == 0 then 1 else 2 * Pow2(bits - 1)
  }

  /** One bit at a time, whichever operand runs out first. */
  lemma XorUnfold(x: nat, y: nat)
    ensures Xor(x, y) == (x + y) % 2 + 2 * Xor(x / 2, y / 2)
  {
  }

  /** Exclusive or with a fixed value is injective. */
  lemma {:induction false} XorInjective(h: nat, u: nat, v: nat)
    requires Xor(h, u) == Xor(h, v)
    ensures u == v
    decreases h + u + v
  {
    if u + v > 0 {
      XorUnfold(h, u);
      XorUnfold(h, v);
      XorInjective(h / 2, u / 2, v / 2);
    }
  }

  lemma {:induction false} XorCommutes(x: nat, y: nat)
    ensures Xor(x, y) == Xor(y, x)
    decreases x + y
  {
    if x > 0 && y > 0 { XorCommutes(x / 2, y / 2); }
  }

  lemma {:induction false} XorInRange(x: nat, y: nat, bits: nat)
    requires x < Pow2(bits) && y < Pow2(bits)
    ensures Xor(x, y) < Pow2(bits)
    decreases bits
  {
    if bits > 0 {
      XorUnfold(x, y);
      XorInRange(x / 2, y / 2, bits - 1);
    }
  }

  lemma Pow2Is32()
    ensures Pow2(32) == U32
  {
    assert Pow2(8) == 256;
    assert Pow2(16) == 65536;
    assert Pow2(24) == 16777216;
  }

  /** The multiplier is odd: 16777619 * 899433627 is 1 modulo 2^32. */
  lemma PrimeInvertible(x: nat)
    requires x < U32
    ensures TimesPrime(x) * 899433627 % U32 == x
  {
    var q, r := x * 16777619 / U32, x * 16777619 % U32;
    UniqueResidue(r * 899433627, x, x * 3513497 - q * 899433627);
  }

  lemma UniqueResidue(y: nat, x: nat, k: int)
    requires x < U32 && y == x + k * U32
    ensures y % U32 == x
  {
  }

  lemma TimesPrimeInjective(x: nat, y: nat)
    requires x < U32 && y < U32 && TimesPrime(x) == TimesPrime(y)
    ensures x == y
  {
    PrimeInvertible(x);
    PrimeInvertible(y);
  }

  /** Each mixing step is a bijection in the word ... */
  lemma MixInjectiveInWord(h: nat, u: nat, v: nat)
    requires h < U32 && u < U32 && v < U32 && Mix(h, u) == Mix(h, v)
    ensures u == v
  {
    Pow2Is32();
    XorInRange(h, u, 32);
    XorInRange(h, v, 32);
    TimesPrimeInjective(Xor(h, u), Xor(h, v));
    XorInjective(h, u, v);
  }

  /** ... and in the state. */
  lemma MixInjectiveInState(h: nat, h': nat, u: nat)
    requires h < U32 && h' < U32 && u < U32 && Mix(h, u) == Mix(h', u)
    ensures h == h'
  {
    XorCommutes(h, u);
    XorCommutes(h', u);
    MixInjectiveInWord(u, h, h');
  }

  lemma {:induction false} FoldInjective(h: nat, h': nat, words: seq<nat>)
    requires h < U32 && h' < U32 && Fold(h, words) == Fold(h', words) && AreWords(words)
    ensures h == h'
    decreases |words|
  {
    if words != [] {
      FoldInjective(Mix(h, words[0]), Mix(h', words[0]), words[1..]);
      MixInjectiveInState(h, h', words[0]);
    }
  }

  /** Changing exactly one hashed word always changes the hash. */
  lemma {:induction false} OneWordChangesHash(h: nat, words: seq<nat>, k: nat, v: nat)
    requires h < U32 && AreWords(words) && k < |words| && v < U32 && words[k] != v
    ensures Fold(h, words[k := v]) != Fold(h, words)
    decreases |words|
  {
    if k == 0 {
      assert words[0 := v][1..] == words[1..];
      if Fold(h, words[k := v]) == Fold(h, words) {
        FoldInjective(Mix(h, words[0]), Mix(h, v), words[1..]);
        MixInjectiveInWord(h, words[0], v);
      }
    } else {
      assert words[k := v][1..] == words[1..][k - 1 := v];
      OneWordChangesHash(Mix(h, words[0]), words[1..], k - 1, v);
    }
  }

  /** The messages differ only in the low half of seq, only in its high half, or only in payload word i. */
  predicate DifferInOne(m: Message, m': Message, i: nat) {
    || (m.payload == m'.payload && m.seqNo / U32 == m'.seqNo / U32 && m.seqNo % U32 != m'.seqNo % U32)
    || (m.payload == m'.payload && m.seqNo / U32 != m'.seqNo / U32 && m.seqNo % U32 == m'.seqNo % U32)
    || (m.seqNo == m'.seqNo && i < |m.payload| == |m'.payload| && m.payload[i] != m'.payload[i]
        && m'.payload == m.payload[i := m'.payload[i]])
  }

  /** Their checksums are then different, whatever the rest holds. */
  lemma {:induction false} OneFieldChangesChecksum(m: Message, m': Message, i: nat)
    requires WellFormed(m) && WellFormed(m') && DifferInOne(m, m', i)
    ensures Checksum(m) != Checksum(m')
  {
    var k := if m.seqNo == m'.seqNo then i + 2 else if m.seqNo % U32 != m'.seqNo % U32 then 0 else 1;
    var words, words' := HashedWords(m), HashedWords(m');
    assert words' == words[k := words'[k]];
    OneWordChangesHash(FNV_OFFSET, words, k, words'[k]);
  }

  /** So a message that passed its check fails it once any one of its eight hashed words has changed. */
  lemma {:induction false} CorruptionDetected(m: Message, m': Message, i: nat)
    requires WellFormed(m) && WellFormed(m') && m.checksum == Checksum(m) && m'.checksum == m.checksum
    requires DifferInOne(m, m', i)
    ensures m'.checksum != Checksum(m')
  {
    OneFieldChangesChecksum(m, m', i);
  }

  lemma {:induction false} FoldPrefix(h: nat, words: seq<nat>, i: nat)
    requires i < |words|
    ensures Fold(h, words[..i + 1]) == Mix(Fold(h, words[..i]), words[i])
  {
    assert words[..i + 1] == words[..i] + [words[i]];
    FoldAppend(h, words[..i], words[i]);
  }

  /** The value: eight steps from the FNV offset basis, over seq, seq >> 32 and payload words 0 to 5 in this order. */
  lemma {:induction false} ChecksumValue(m: Message)
    requires WellFormed(m)
    ensures var h1 := Xor(2166136261, m.seqNo % 0x1_0000_0000) * 16777619 % 0x1_0000_0000;
            var h2 := Xor(h1, m.seqNo / 0x1_0000_0000) * 16777619 % 0x1_0000_0000;
            var h3 := Xor(h2, m.payload[0]) * 16777619 % 0x1_0000_0000;
            var h4 := Xor(h3, m.payload[1]) * 16777619 % 0x1_0000_0000;
            var h5 := Xor(h4, m.payload[2]) * 16777619 % 0x1_0000_0000;
            var h6 := Xor(h5, m.payload[3]) * 16777619 % 0x1_0000_0000;
            var h7 := Xor(h6, m.payload[4]) * 16777619 % 0x1_0000_0000;
            Checksum(m) == Xor(h7, m.payload[5]) * 16777619 % 0x1_0000_0000
  {
    var words := HashedWords(m);
    assert words[..0] == [] && words[..8] == words;
    FoldPrefix(FNV_OFFSET, words, 0);
    FoldPrefix(FNV_OFFSET, words, 1);
    FoldPrefix(FNV_OFFSET, words, 2);
    FoldPrefix(FNV_OFFSET, words, 3);
    FoldPrefix(FNV_OFFSET, words, 4);
    FoldPrefix(FNV_OFFSET, words, 5);
    FoldPrefix(FNV_OFFSET, words, 6);
    FoldPrefix(FNV_OFFSET, words, 7);
  }

  /** Bit i of a number. */
  function Bit(x: nat, i: nat): nat
    decreases i
  {
    if i == 0 then x % 2 else Bit(x / 2, i - 1)
  }

  lemma {:induction false} XorHalves(x: nat, y: nat)
    ensures Xor(x, y) % 2 == (if x % 2 == y % 2 then 0 else 1) && Xor(x, y) / 2 == Xor(x / 2, y / 2)
  {
    XorUnfold(x, y);
  }

  /** Xor is exclusive or bit by bit ... */
  lemma {:induction false} XorBits(x: nat, y: nat, i: nat)
    ensures Bit(Xor(x, y), i) == if Bit(x, i) == Bit(y, i) then 0 else 1
    decreases i
  {
    XorHalves(x, y);
    if i > 0 {
      XorBits(x / 2, y / 2, i - 1);
    }
  }

  /** ... and bits determine a number. */
  lemma {:induction false} BitsDetermine(x: nat, y: nat)
    requires forall i: nat :: Bit(x, i) == Bit(y, i)
    ensures x == y
    decreases x + y
  {
    assert Bit(x, 0) == Bit(y, 0);
    if x + y > 0 {
      forall i: nat ensures Bit(x / 2, i) == Bit(y / 2, i) {
        assert Bit(x, i + 1) == Bit(y, i + 1);
      }
      BitsDetermine(x / 2, y / 2);
    }
  }

  // ---------------------------------------------------------------- makeMessage

  function PayloadWord(seqNo: nat, i: nat): nat
    requires i < 6
  {
    Lo((seqNo * 31 + i) % U64)
  }

  lemma {:induction false} WordOfWide(x: nat)
    ensures x % U64 % U32 == x % U32
  {
    var q, y := x / U64, x % U64;
    assert x == (q * U32 + y / U32) * U32 + y % U32;
    UniqueResidue(x, y % U32, q * U32 + y / U32);
  }

  lemma {:induction false} NextWord(x: nat, d: nat)
    ensures (x + d) % U32 == (x % U32 + d) % U32
  {
    var q, r := x / U32, x % U32;
    var p, t := (r + d) / U32, (r + d) % U32;
    UniqueResidue(x + d, t, q + p);
  }

  /** Payload words: message 0 starts at 0, the words rise by one, and those of the next message are 31 higher. */
  lemma {:induction false} PayloadWords(seqNo: nat, i: nat)
    requires i < 6
    ensures PayloadWord(0, 0) == 0
    ensures i > 0 ==> PayloadWord(seqNo, i) == (PayloadWord(seqNo, i - 1) + 1) % U32
    ensures PayloadWord(seqNo + 1, i) == (PayloadWord(seqNo, i) + 31) % U32
  {
    WordOfWide(seqNo * 31 + i);
    WordOfWide((seqNo + 1) * 31 + i);
    NextWord(seqNo * 31 + i, 31);
    assert (seqNo + 1) * 31 + i == seqNo * 31 + i + 31;
    if i > 0 {
      WordOfWide(seqNo * 31 + (i - 1));
      NextWord(seqNo * 31 + (i - 1), 1);
    }
  }

  lemma {:induction false} FoldInRange(h: nat, words: seq<nat>)
    requires h < U32
    ensures Fold(h, words) < U32
    decreases |words|
  {
    if words != [] { FoldInRange(Mix(h, words[0]), words[1..]); }
  }

  predicate PassesChecksum(m: Message) { m.checksum == Checksum(m) }

  /** The message with a given number and time stamp. */
  predicate Made(m: Message, seqNo: nat, sentNs: nat) {
    && WellFormed(m) && PassesChecksum(m)
    && m.seqNo == seqNo && m.sentNs == sentNs && m.reserved == 0
    && forall i :: 0 <= i < 6 ==> m.payload[i] == PayloadWord(seqNo, i)
  }

  /** makeMessage() */
  method MakeMessage(seqNo: nat, sentNs: nat) returns (m: Message)
    requires seqNo < U64 && sentNs < U64
    ensures Made(m, seqNo, sentNs)
  {
    var payload := [];
    for i := 0 to 6
      invariant |payload| == i
      invariant forall j :: 0 <= j < i ==> payload[j] == PayloadWord(seqNo, j) && payload[j] < U32
    {
      payload := payload + [PayloadWord(seqNo, i)];
    }
    m := Message(seqNo, sentNs, payload, 0, 0);
    var h := ChecksumOf(m);
    FoldInRange(FNV_OFFSET, HashedWords(m));
    ghost var hashed := HashedWords(m);
    m := m.(checksum := h);
    assert HashedWords(m) == hashed;
  }

  // ---------------------------------------------------------------- streams

  /** What the consumer expects at position i: one more than the previous message, starting at 0. */
  function Expected(ms: seq<Message>, i: nat): nat
    requires i <= |ms|
  {
    if i == 0 then 0 else (ms[i - 1].seqNo + 1) % U64
  }

  /** Position i breaks the sequence or fails the check. */
  predicate Broken(good: Message -> bool, ms: seq<Message>, i: nat)
    requires i < |ms|
  {
    ms[i].seqNo != Expected(ms, i) || !good(ms[i])
  }

  ghost function Breaks(good: Message -> bool, ms: seq<Message>): set<nat> {
    set i: nat | i < |ms| && Broken(good, ms, i)
  }

  /** Later messages do not change what is wrong with earlier ones. */
  lemma BrokenIsLocal(good: Message -> bool, ms: seq<Message>, more: seq<Message>)
    ensures forall i: nat :: i < |ms| ==> (Broken(good, ms + more, i) <==> Broken(good, ms, i))
  {
  }

  lemma NextExpected(good: Message -> bool, ms: seq<Message>, m: Message)
    ensures Expected(ms + [m], |ms + [m]|) == (m.seqNo + 1) % U64
    ensures Broken(good, ms + [m], |ms|) <==> m.seqNo != Expected(ms, |ms|) || !good(m)
  {
  }

  lemma BreaksGrow(good: Message -> bool, ms: seq<Message>, m: Message)
    ensures |Breaks(good, ms + [m])| == |Breaks(good, ms)| + (if Broken(good, ms + [m], |ms|) then 1 else 0)
  {
    BrokenIsLocal(good, ms, [m]);
    assert Breaks(good, ms + [m]) == Breaks(good, ms) + (if Broken(good, ms + [m], |ms|) then {|ms|} else {});
  }

  /** Messages 0, 1, 2, ..., all good. */
  predicate InOrder(good: Message -> bool, ms: seq<Message>) {
    forall i :: 0 <= i < |ms| ==> IsNumber(good, ms[i], i)
  }

  predicate IsNumber(good: Message -> bool, m: Message, i: nat) { m.seqNo == i < U64 && good(m) }

  /** One lost message is one error, wherever it is lost: the count picks up at the next one. */
  lemma {:induction false} LostCountsOnce(good: Message -> bool, ms: seq<Message>, k: nat)
    requires InOrder(good, ms) && k + 1 < |ms|
    ensures Breaks(good, ms[..k] + ms[k + 1..]) == {k}
  {
    var got := ms[..k] + ms[k + 1..];
    forall i: nat | i < |got| ensures Broken(good, got, i) <==> i == k {
      assert got[i] == ms[if i < k then i else i + 1];
      assert IsNumber(good, ms[i], i) && IsNumber(good, ms[i + 1], i + 1);
      if i > 0 {
        assert got[i - 1] == ms[if i - 1 < k then i - 1 else i];
        assert IsNumber(good, ms[i - 1], i - 1);
      }
    }
  }

  /** One repeated message is one error. */
  lemma {:induction false} RepeatCountsOnce(good: Message -> bool, ms: seq<Message>, k: nat)
    requires InOrder(good, ms) && k < |ms|
    ensures Breaks(good, ms[..k + 1] + ms[k..]) == {k + 1}
  {
    var got := ms[..k + 1] + ms[k..];
    forall i: nat | i < |got| ensures Broken(good, got, i) <==> i == k + 1 {
      assert got[i] == ms[if i <= k then i else i - 1];
      assert i < |ms| ==> IsNumber(good, ms[i], i);
      if i > 0 {
        assert got[i - 1] == ms[if i - 1 <= k then i - 1 else i - 2];
        assert IsNumber(good, ms[i - 1], i - 1);
        if i > 1 { assert IsNumber(good, ms[i - 2], i - 2); }
      }
    }
  }

  /** One message that fails its check, its number intact, is one error. */
  lemma {:induction false} CorruptCountsOnce(good: Message -> bool, ms: seq<Message>, k: nat, m: Message)
    requires InOrder(good, ms) && k < |ms| && m.seqNo == k && !good(m)
    ensures Breaks(good, ms[k := m]) == {k}
  {
    var got := ms[k := m];
    forall i: nat | i < |got| ensures Broken(good, got, i) <==> i == k {
      assert IsNumber(good, ms[i], i);
      if i > 0 { assert IsNumber(good, ms[i - 1], i - 1); }
    }
  }

  // ---------------------------------------------------------------- the send loop

  /** What the calls of one turn would answer: the clock, the stop flag and push(). */
  datatype Turn = Turn(now: nat, stop: bool, pushed: bool) {
    predicate GoesOn() { !stop && pushed }
  }

  /**
    The producer's loop: turn i pushes the message numbered i, until `total` are out, a stop is
    requested or push() reports the consumer gone.
  */
  method SendLoop(total: nat, turns: seq<Turn>) returns (sent: nat, accepted: seq<Message>)
    requires total < U64 && |turns| == total && forall i :: 0 <= i < total ==> turns[i].now < U64
    ensures sent == |accepted| <= total
    ensures forall i :: 0 <= i < sent ==> turns[i].GoesOn() && Made(accepted[i], i, turns[i].now)
    ensures sent < total ==> !turns[sent].GoesOn()
  {
    sent, accepted := 0, [];
    while sent < total && !turns[sent].stop
      invariant sent == |accepted| <= total
      invariant forall i :: 0 <= i < sent ==> turns[i].GoesOn() && Made(accepted[i], i, turns[i].now)
    {
      var m := MakeMessage(sent, turns[sent].now);
      if !turns[sent].pushed {
        break;
      }
      accepted := accepted + [m];
      sent := sent + 1;
    }
  }

  // ---------------------------------------------------------------- the drain loop

  /** One turn of the consumer: what pop_n returned, and what peerAlive() and empty() said if it was nothing. */
  datatype Poll = Poll(batch: seq<Message>, peerAlive: bool, empty: bool) {
    predicate Exits() { batch == [] && !peerAlive && empty }
  }

  /** Everything received before the loop leaves. */
  function Received(polls: seq<Poll>): seq<Message>
    decreases |polls|
  {
    if polls == [] || polls[0].Exits() then [] else polls[0].batch + Received(polls[1..])
  }

  function AllBatches(polls: seq<Poll>): (batches: seq<seq<Message>>)
    ensures |batches| == |polls|
  {
    seq(|polls|, i requires 0 <= i < |polls| => polls[i].batch)
  }

  /**
    The loop goes on past a poll that brought something, or found the peer alive, or the queue not
    empty; it leaves at the first that did none of these.
  */
  lemma {:induction false} ReceivedUntil(polls: seq<Poll>, k: nat)
    requires k <= |polls|
    requires forall i :: 0 <= i < k ==> polls[i].batch != [] || polls[i].peerAlive || !polls[i].empty
    requires k < |polls| ==> polls[k].batch == [] && !polls[k].peerAlive && polls[k].empty
    ensures Received(polls) == Concat(AllBatches(polls[..k]))
    decreases k
  {
    if k > 0 {
      var rest := polls[1..];
      forall i | 0 <= i < k - 1 ensures rest[i].batch != [] || rest[i].peerAlive || !rest[i].empty {
        assert rest[i] == polls[i + 1];
      }
      ReceivedUntil(rest, k - 1);
      assert AllBatches(polls[..k])[1..] == AllBatches(rest[..k - 1]);
    }
  }

  /** While the peer is alive nothing ends the loop. */
  lemma {:induction false} LivePeerKeepsDraining(polls: seq<Poll>)
    requires forall i :: 0 <= i < |polls| ==> polls[i].peerAlive
    ensures Received(polls) == Concat(AllBatches(polls))
  {
    ReceivedUntil(polls, |polls|);
    assert polls[..|polls|] == polls;
  }

  /** The inner loop over one batch; `before` is what was received so far. */
  method CheckBatch(ghost before: seq<Message>, batch: seq<Message>, due0: nat, errors0: nat)
    returns (due: nat, errors: nat)
    requires due0 == Expected(before, |before|) && errors0 == |Breaks(PassesChecksum, before)|
    ensures due == Expected(before + batch, |before + batch|)
    ensures errors == |Breaks(PassesChecksum, before + batch)|
  {
    due, errors := due0, errors0;
    assert before + batch[..0] == before;
    for i := 0 to |batch|
      invariant due == Expected(before + batch[..i], |before + batch[..i]|)
      invariant errors == |Breaks(PassesChecksum, before + batch[..i])|
    {
      ghost var seen := before + batch[..i];
      assert before + batch[..i + 1] == seen + [batch[i]];
      BreaksGrow(PassesChecksum, seen, batch[i]);
      NextExpected(PassesChecksum, seen, batch[i]);
      var wanted := due;
      due := (due + 1) % U64;
      var h := ChecksumOf(batch[i]);
      if batch[i].seqNo != wanted || batch[i].checksum != h {
        errors := errors + 1;
        due := (batch[i].seqNo + 1) % U64;
      }
    }
    assert batch[..|batch|] == batch;
  }

  /**
    The consumer's loop.  `errors` is exactly the number of positions, over everything received and
    however it was split into batches, whose sequence number or checksum is wrong.
  */
  method Drain(polls: seq<Poll>) returns (received: nat, errors: nat)
    ensures received == |Received(polls)|
    ensures errors == |Breaks(PassesChecksum, Received(polls))|
  {
    received, errors := 0, 0;
    var due := 0;
    ghost var all: seq<Message> := [];
    assert Breaks(PassesChecksum, all) == {};
    var i := 0;
    while i < |polls|
      invariant 0 <= i <= |polls|
      invariant all + Received(polls[i..]) == Received(polls)
      invariant received == |all| && due == Expected(all, |all|) && errors == |Breaks(PassesChecksum, all)|
    {
      var p := polls[i];
      assert polls[i..][1..] == polls[i + 1..];
      if |p.batch| == 0 {
        if !p.peerAlive && p.empty {
          assert all + [] == all;
          return;
        }
        assert p.batch + Received(polls[i + 1..]) == Received(polls[i + 1..]);
      } else {
        due, errors := CheckBatch(all, p.batch, due, errors);
        assert all + (p.batch + Received(polls[i + 1..])) == (all + p.batch) + Received(polls[i + 1..]);
        all := all + p.batch;
        received := received + |p.batch|;
      }
      i := i + 1;
    }
    assert all + [] == all;
  }

  // ---------------------------------------------------------------- over the queue

  /** A 48-byte message as twelve words. */
  function Encode(m: Message): (x: Item)
    requires WellFormed(m)
    ensures |x| == 12
  {
    [Lo(m.seqNo), Hi(m.seqNo), Lo(m.sentNs), Hi(m.sentNs)] + m.payload + [m.checksum, m.reserved]
  }

  function Decode(x: Item): Message
    requires |x| == 12
  {
    Message(x[0] + x[1] * U32, x[2] + x[3] * U32, x[4..10], x[10], x[11])
  }

  lemma DecodeEncode(m: Message)
    requires WellFormed(m)
    ensures Decode(Encode(m)) == m
  {
  }

  /** The words of the message the producer makes for number i. */
  predicate MadeItem(x: Item, i: nat) {
    |x| == 12 && Made(Decode(x), i, Decode(x).sentNs)
  }

  lemma EncodedIsMade(m: Message, seqNo: nat, sentNs: nat)
    requires Made(m, seqNo, sentNs)
    ensures MadeItem(Encode(m), seqNo)
  {
  }

  /** Number and stamp determine the message. */
  lemma MadeIsUnique(m: Message, m': Message, seqNo: nat, sentNs: nat)
    requires Made(m, seqNo, sentNs) && Made(m', seqNo, sentNs)
    ensures m == m'
  {
    assert m.payload == m'.payload;
    assert HashedWords(m) == HashedWords(m');
  }

  /** Messages 0, 1, 2, ... in order. */
  predicate InSequence(items: seq<Item>) {
    forall i :: 0 <= i < |items| ==> MadeItem(items[i], i)
  }

  predicate AreMessages(items: seq<Item>) { forall i :: 0 <= i < |items| ==> |items[i]| == 12 }

  function DecodeAll(items: seq<Item>): (ms: seq<Message>)
    requires AreMessages(items)
    ensures |ms| == |items|
  {
    seq(|items|, i requires 0 <= i < |items| => Decode(items[i]))
  }

  /** What the consumer looks at in an item. */
  predicate Numbered(good: Message -> bool, x: Item, i: nat) {
    |x| == 12 && Decode(x).seqNo == i < U64 && good(Decode(x))
  }

  lemma NumberedHasNoBreaks(good: Message -> bool, items: seq<Item>)
    requires forall i :: 0 <= i < |items| ==> Numbered(good, items[i], i)
    ensures AreMessages(items) && Breaks(good, DecodeAll(items)) == {}
  {
    assert AreMessages(items) by {
      forall i | 0 <= i < |items| ensures |items[i]| == 12 { assert Numbered(good, items[i], i); }
    }
    var ms := DecodeAll(items);
    forall i: nat | i < |ms| ensures !Broken(good, ms, i) {
      assert Numbered(good, items[i], i);
      if i > 0 { assert Numbered(good, items[i - 1], i - 1); }
    }
  }

  lemma MadeIsNumbered(x: Item, i: nat)
    requires MadeItem(x, i)
    ensures Numbered(PassesChecksum, x, i)
  {
  }

  /** A consumer finds nothing wrong with items in sequence. */
  lemma InSequenceHasNoBreaks(items: seq<Item>)
    requires InSequence(items)
    ensures AreMessages(items) && Breaks(PassesChecksum, DecodeAll(items)) == {}
  {
    forall i | 0 <= i < |items| ensures Numbered(PassesChecksum, items[i], i) {
      MadeIsNumbered(items[i], i);
    }
    NumberedHasNoBreaks(PassesChecksum, items);
  }

  // ---------------------------------------------------------------- the producer in the machine

  /** The send loop of process pid: its counter, and the message it is pushing, as words, until push() returns. */
  datatype Sender = Sender(pid: int, sent: nat, pending: seq<Item>)

  /** One process alone opens producer handles; a new push is of the message made for `sent`, a retry of the same one. */
  predicate SenderMay(snd: Sender, total: nat, a: Action) {
    && (a.Open? && a.role == Producer ==> a.p == snd.pid)
    && (a.BeginPush? ==>
          snd.sent < total && |a.src| == 1 &&
          if snd.pending == [] then MadeItem(a.src[0], snd.sent) else a.src == snd.pending)
  }

  /** The counter moves when a push of this process publishes. */
  function SenderAfter(cfg: Config, snd: Sender, s: State, a: Action): Sender
    requires Enabled(cfg, s, a)
  {
    if a.BeginPush? then snd.(pending := a.src)
    else if a.Publish? && s.handles[a.h].pid == snd.pid then snd.(sent := snd.sent + 1, pending := [])
    else snd
  }

  /** A careful run of the pair: the producer is the send loop, everyone else is free. */
  predicate DemoRun(cfg: Config, s: State, snd: Sender, total: nat, acts: seq<Action>)
    decreases |acts|
  {
    acts == [] ||
    (Enabled(cfg, s, acts[0]) && Careful(cfg, s, acts[0]) && SenderMay(snd, total, acts[0]) &&
     DemoRun(cfg, Next(cfg, s, acts[0]), SenderAfter(cfg, snd, s, acts[0]), total, acts[1..]))
  }

  function SenderEnd(cfg: Config, s: State, snd: Sender, total: nat, acts: seq<Action>): Sender
    requires DemoRun(cfg, s, snd, total, acts)
    decreases |acts|
  {
    if acts == [] then snd
    else SenderEnd(cfg, Next(cfg, s, acts[0]), SenderAfter(cfg, snd, s, acts[0]), total, acts[1..])
  }

  /** A producer handle is the sender's, and pushes what is pending. */
  predicate SenderHandle(snd: Sender, hd: Handle) {
    && (hd.role == Producer ==> hd.pid == snd.pid)
    && (hd.phase.PushLoaded? || hd.phase.Writing? ==> hd.phase.src == snd.pending != [])
  }

  ghost predicate SenderInv(snd: Sender, total: nat, s: State) {
    && snd.sent == s.mem.P() <= total && InSequence(s.mem.published)
    && (snd.pending != [] ==> snd.sent < total && |snd.pending| == 1 && MadeItem(snd.pending[0], snd.sent))
    && forall h :: h in s.handles ==> SenderHandle(snd, s.handles[h])
  }

  lemma SenderPublishes(cfg: Config, s: State, snd: Sender, total: nat, h: nat)
    requires Inv(cfg, s) && SenderInv(snd, total, s) && Enabled(cfg, s, Publish(h))
    ensures SenderInv(SenderAfter(cfg, snd, s, Publish(h)), total, Next(cfg, s, Publish(h)))
  {
    var s', snd' := Next(cfg, s, Publish(h)), SenderAfter(cfg, snd, s, Publish(h));
    assert HandleInv(cfg, s.mem, s.handles[h]) && SenderHandle(snd, s.handles[h]);
    assert s'.mem.published == s.mem.published + [snd.pending[0]];
    forall g | g in s'.handles ensures SenderHandle(snd', s'.handles[g]) {
      if g != h {
        assert SenderHandle(snd, s.handles[g]);
        SoleBoundProducer(cfg, s, h, g);
      }
    }
  }

  lemma SenderBegins(cfg: Config, s: State, snd: Sender, total: nat, a: Action)
    requires Inv(cfg, s) && SenderInv(snd, total, s) && a.BeginPush? && Enabled(cfg, s, a) && SenderMay(snd, total, a)
    ensures SenderInv(SenderAfter(cfg, snd, s, a), total, Next(cfg, s, a))
  {
    var s', snd' := Next(cfg, s, a), SenderAfter(cfg, snd, s, a);
    assert SenderHandle(snd, s.handles[a.h]);
    forall g | g in s'.handles ensures SenderHandle(snd', s'.handles[g]) {
      if g != a.h {
        assert SenderHandle(snd, s.handles[g]);
        OneProducer(cfg, s, a.h, g);
      }
    }
  }

  lemma OneProducer(cfg: Config, s: State, h: nat, g: nat)
    requires Inv(cfg, s) && h in s.handles && g in s.handles && h != g
    requires s.handles[h].phase.Bound() && s.handles[h].role == Producer
    ensures !s.handles[g].phase.PushLoaded? && !s.handles[g].phase.Writing?
  {
    assert HandleClaim(s, s.handles[h]) && HandleClaim(s, s.handles[g]) && HandleInv(cfg, s.mem, s.handles[g]);
  }

  lemma SenderElse(cfg: Config, s: State, snd: Sender, total: nat, a: Action)
    requires SenderInv(snd, total, s) && Enabled(cfg, s, a) && SenderMay(snd, total, a) && !a.Publish? && !a.BeginPush?
    ensures SenderInv(snd, total, Next(cfg, s, a))
  {
    var s' := Next(cfg, s, a);
    IndexWriters(cfg, s, a);
    forall g | g in s'.handles ensures SenderHandle(snd, s'.handles[g]) {
      assert g in s.handles ==> SenderHandle(snd, s.handles[g]);
    }
  }

  lemma {:induction false} DemoRunKeeps(cfg: Config, s: State, snd: Sender, total: nat, acts: seq<Action>)
    requires Inv(cfg, s) && SenderInv(snd, total, s) && DemoRun(cfg, s, snd, total, acts)
    ensures CarefulRun(cfg, s, acts) && Run(cfg, s, acts) && Inv(cfg, Exec(cfg, s, acts))
    ensures SenderInv(SenderEnd(cfg, s, snd, total, acts), total, Exec(cfg, s, acts))
    decreases |acts|
  {
    if acts != [] {
      StepKeepsInv(cfg, s, acts[0]);
      SenderStep(cfg, s, snd, total, acts[0]);
      DemoRunKeeps(cfg, Next(cfg, s, acts[0]), SenderAfter(cfg, snd, s, acts[0]), total, acts[1..]);
    }
  }

  lemma SenderStep(cfg: Config, s: State, snd: Sender, total: nat, a: Action)
    requires Inv(cfg, s) && SenderInv(snd, total, s) && Enabled(cfg, s, a) && SenderMay(snd, total, a)
    ensures SenderInv(SenderAfter(cfg, snd, s, a), total, Next(cfg, s, a))
  {
    if a.Publish? {
      SenderPublishes(cfg, s, snd, total, a.h);
    } else if a.BeginPush? {
      SenderBegins(cfg, s, snd, total, a);
    } else {
      SenderElse(cfg, s, snd, total, a);
    }
  }

  /**
    End to end, for every run of the pair from a fresh segment, whatever the interleaving, batching,
    crashes and takeovers: the loop counter is the number of messages published, and what was
    published, and what was delivered, are messages 0, 1, 2, ... as made.
  */
  lemma DemoPairInSequence(cfg: Config, s: State, pid: int, total: nat, acts: seq<Action>)
    requires cfg.Valid() && Init(cfg, s) && DemoRun(cfg, s, Sender(pid, 0, []), total, acts)
    ensures Run(cfg, s, acts)
    ensures var m := Exec(cfg, s, acts).mem;
            && SenderEnd(cfg, s, Sender(pid, 0, []), total, acts).sent == m.P() <= total
            && InSequence(m.published) && InSequence(m.delivered)
  {
    InitInv(cfg, s);
    DemoRunKeeps(cfg, s, Sender(pid, 0, []), total, acts);
    DeliveredIsPrefix(cfg, s, acts);
    var m := Exec(cfg, s, acts).mem;
    assert forall i :: 0 <= i < |m.delivered| ==> m.delivered[i] == m.published[i];
  }

  /** The turn at which a send loop stops is the first that does not go on. */
  lemma StopsAt(turns: seq<Turn>, sent: nat, n: nat)
    requires sent <= |turns| && n <= |turns| && forall i :: 0 <= i < |turns| ==> (turns[i].GoesOn() <==> i < n)
    requires forall i :: 0 <= i < sent ==> turns[i].GoesOn()
    requires sent < |turns| ==> !turns[sent].GoesOn()
    ensures sent == n
  {
    var at := if sent < n then sent else n;
    assert at < |turns| ==> (turns[at].GoesOn() <==> at < n);
  }

  // ---------------------------------------------------------------- the send loop as blocking calls

  /** One push() of the send loop: the message, and the rounds of the call. */
  datatype Sent = Sent(m: Message, rounds: seq<Round>)

  /** The handle and the spin bound its calls use. */
  datatype Outlet = Outlet(h: nat, peerCheckSpins: nat) {
    function CallOf(m: Message): Call
      requires WellFormed(m)
    {
      Push(h, Encode(m), peerCheckSpins)
    }
  }

  /** Where push i starts. */
  function SentFrom(s: State, sents: seq<Sent>, i: nat): State
    requires i <= |sents|
  {
    if i == 0 || sents[i - 1].rounds == [] then s
    else sents[i - 1].rounds[|sents[i - 1].rounds| - 1].end
  }

  /** What push i returned. */
  function PushAnswered(out: Outlet, x: Sent): Answer
    requires WellFormed(x.m) && x.rounds != []
  {
    AnswerAt(out.CallOf(x.m), x.rounds, |x.rounds| - 1)
  }

  /** Push i is a finished blocking call of the machine with the message made for number i. */
  ghost predicate SentAt(cfg: Config, out: Outlet, s: State, sents: seq<Sent>, i: nat)
    requires i < |sents|
  {
    && Made(sents[i].m, i, sents[i].m.sentNs) && sents[i].rounds != []
    && IsCall(cfg, out.CallOf(sents[i].m), SentFrom(s, sents, i), sents[i].rounds)
    && PushAnswered(out, sents[i]) != Again
  }

  /** Push after push, each but the last having returned true. */
  ghost predicate Sending(cfg: Config, out: Outlet, s: State, sents: seq<Sent>) {
    && (forall i: nat {:trigger SentAt(cfg, out, s, sents, i)} :: i < |sents| ==> SentAt(cfg, out, s, sents, i))
    && (forall i: nat {:trigger Accepted(out, sents, i)} :: i < |sents| - 1 ==> Accepted(out, sents, i))
  }

  /** Push i returned true. */
  predicate Accepted(out: Outlet, sents: seq<Sent>, i: nat)
    requires i < |sents|
  {
    WellFormed(sents[i].m) && sents[i].rounds != [] && PushAnswered(out, sents[i]) == Done
  }

  /** The items are these messages in words. */
  predicate Carries(items: seq<Item>, ms: seq<Message>) {
    |items| == |ms| && forall i :: 0 <= i < |ms| ==> WellFormed(ms[i]) && items[i] == Encode(ms[i])
  }

  function Messages(sents: seq<Sent>, n: nat): (ms: seq<Message>)
    requires n <= |sents|
    ensures |ms| == n
  {
    seq(n, i requires 0 <= i < n => sents[i].m)
  }

  /** Between s and push i exactly the messages of the pushes before it have been published. */
  ghost predicate PublishedSoFar(cfg: Config, s: State, sents: seq<Sent>, i: nat)
    requires i <= |sents|
  {
    var published := SentFrom(s, sents, i).mem.published;
    Inv(cfg, SentFrom(s, sents, i)) && s.mem.published <= published && Carries(published[s.mem.P()..], Messages(sents, i))
  }

  lemma {:induction false} OneMorePush(cfg: Config, out: Outlet, s: State, sents: seq<Sent>, i: nat)
    requires Sending(cfg, out, s, sents) && i < |sents| && PublishedSoFar(cfg, s, sents, i) && Accepted(out, sents, i)
    ensures PublishedSoFar(cfg, s, sents, i + 1)
  {
    PushAt(cfg, out, s, sents, i);
    var before, after := SentFrom(s, sents, i).mem.published, SentFrom(s, sents, i + 1).mem.published;
    CarriesOneMore(s.mem.published, before, after, Messages(sents, i), sents[i].m);
    assert Messages(sents, i + 1) == Messages(sents, i) + [sents[i].m];
  }

  /** After the first i pushes, all true, exactly their messages have been published. */
  lemma {:induction false} SentSoFar(cfg: Config, out: Outlet, s: State, sents: seq<Sent>, i: nat)
    requires Inv(cfg, s) && Sending(cfg, out, s, sents) && i <= |sents|
    requires forall j: nat {:trigger Accepted(out, sents, j)} :: j < i ==> Accepted(out, sents, j)
    ensures PublishedSoFar(cfg, s, sents, i)
    decreases i
  {
    if i == 0 {
      NothingSent(cfg, s, sents);
    } else {
      SentSoFar(cfg, out, s, sents, i - 1);
      assert Accepted(out, sents, i - 1);
      OneMorePush(cfg, out, s, sents, i - 1);
    }
  }

  lemma {:induction false} NothingSent(cfg: Config, s: State, sents: seq<Sent>)
    requires Inv(cfg, s)
    ensures PublishedSoFar(cfg, s, sents, 0)
  {
  }

  lemma CarriesOneMore(base: seq<Item>, before: seq<Item>, after: seq<Item>, ms: seq<Message>, m: Message)
    requires base <= before && Carries(before[|base|..], ms) && WellFormed(m) && after == before + [Encode(m)]
    ensures base <= after && Carries(after[|base|..], ms + [m])
  {
    assert after[|base|..] == before[|base|..] + [Encode(m)];
  }

  lemma PushAt(cfg: Config, out: Outlet, s: State, sents: seq<Sent>, i: nat)
    requires i < |sents| && Inv(cfg, SentFrom(s, sents, i)) && Sending(cfg, out, s, sents)
    ensures WellFormed(sents[i].m) && Inv(cfg, SentFrom(s, sents, i + 1))
    ensures SentFrom(s, sents, i + 1).mem.published ==
              SentFrom(s, sents, i).mem.published + (if Accepted(out, sents, i) then [Encode(sents[i].m)] else [])
  {
    assert SentAt(cfg, out, s, sents, i);
    OnePush(cfg, out, SentFrom(s, sents, i), sents[i]);
  }

  lemma OnePush(cfg: Config, out: Outlet, s: State, x: Sent)
    requires Inv(cfg, s) && WellFormed(x.m) && x.rounds != [] && IsCall(cfg, out.CallOf(x.m), s, x.rounds)
    ensures var end := x.rounds[|x.rounds| - 1].end;
            && Inv(cfg, end)
            && end.mem.published == s.mem.published + (if PushAnswered(out, x) == Done then [Encode(x.m)] else [])
  {
    CallComesTo(cfg, out.CallOf(x.m), s, x.rounds);
    CallKeepsInv(cfg, out.CallOf(x.m), s, x.rounds);
  }

  /** How many pushes returned true. */
  function Successes(out: Outlet, sents: seq<Sent>): nat {
    if sents == [] then 0 else if Accepted(out, sents, |sents| - 1) then |sents| else |sents| - 1
  }

  /** The whole loop, its last push true or false. */
  lemma SentInAll(cfg: Config, out: Outlet, s: State, sents: seq<Sent>)
    requires Inv(cfg, s) && Sending(cfg, out, s, sents)
    ensures var published := SentFrom(s, sents, |sents|).mem.published;
            s.mem.published <= published && Carries(published[s.mem.P()..], Messages(sents, Successes(out, sents)))
  {
    var n := Successes(out, sents);
    assert forall j: nat {:trigger Accepted(out, sents, j)} :: j < n ==> Accepted(out, sents, j);
    SentSoFar(cfg, out, s, sents, n);
    if n < |sents| {
      PushAt(cfg, out, s, sents, n);
    }
  }

  /**
    The send loop on blocking calls of the machine: it goes on exactly while they return true, and
    what it accepted is, message by message, what those calls published, whatever every other process
    did meanwhile.
  */
  method ReplaySend(ghost cfg: Config, out: Outlet, ghost s: State, total: nat, sents: seq<Sent>)
    returns (sent: nat, accepted: seq<Message>)
    requires Inv(cfg, s) && Sending(cfg, out, s, sents) && |sents| <= total < U64
    ensures sent == |accepted| == Successes(out, sents)
    ensures var published := SentFrom(s, sents, |sents|).mem.published;
            s.mem.published <= published && Carries(published[s.mem.P()..], accepted)
  {
    forall i: nat | i < |sents| ensures Made(sents[i].m, i, sents[i].m.sentNs) && sents[i].rounds != [] {
      assert SentAt(cfg, out, s, sents, i);
    }
    var turns := seq(total, i requires 0 <= i < total =>
      if i < |sents| then Turn(sents[i].m.sentNs, false, Accepted(out, sents, i)) else Turn(0, true, false));
    sent, accepted := SendLoop(total, turns);
    assert forall j: nat {:trigger Accepted(out, sents, j)} :: j < |sents| - 1 ==> Accepted(out, sents, j);
    StopsAt(turns, sent, Successes(out, sents));
    SentInAll(cfg, out, s, sents);
    forall i | 0 <= i < sent ensures accepted[i] == sents[i].m {
      MadeIsUnique(accepted[i], sents[i].m, i, turns[i].now);
    }
    assert accepted == Messages(sents, sent);
  }

  // ---------------------------------------------------------------- the consumer in the machine

  function Concat<T>(xss: seq<seq<T>>): seq<T>
    decreases |xss|
  {
    if xss == [] then [] else xss[0] + Concat(xss[1..])
  }

  lemma {:induction false} ConcatMore<T>(xs: seq<T>, xss: seq<seq<T>>)
    ensures Concat([xs] + xss) == xs + Concat(xss)
  {
    assert ([xs] + xss)[1..] == xss;
  }

  /** The batches handed over by the index stores of the pops in a run. */
  function Handed(cfg: Config, s: State, acts: seq<Action>): seq<seq<Item>>
    requires Run(cfg, s, acts)
    decreases |acts|
  {
    if acts == [] then []
    else
      (if acts[0].Consume? then [Next(cfg, s, acts[0]).mem.delivered[s.mem.C()..]] else []) +
      Handed(cfg, Next(cfg, s, acts[0]), acts[1..])
  }

  lemma DeliveredStep(cfg: Config, s: State, a: Action)
    requires Enabled(cfg, s, a)
    ensures s.mem.delivered <= Next(cfg, s, a).mem.delivered
    ensures !a.Consume? ==> Next(cfg, s, a).mem.delivered == s.mem.delivered
  {
    IndexWriters(cfg, s, a);
  }

  lemma {:induction false} HandedIsDelivered(cfg: Config, s: State, acts: seq<Action>)
    requires Run(cfg, s, acts)
    ensures Exec(cfg, s, acts).mem.delivered == s.mem.delivered + Concat(Handed(cfg, s, acts))
    decreases |acts|
  {
    if acts != [] {
      var s' := Next(cfg, s, acts[0]);
      var rest := Handed(cfg, s', acts[1..]);
      var batch := s'.mem.delivered[s.mem.C()..];
      HandedIsDelivered(cfg, s', acts[1..]);
      DeliveredStep(cfg, s, acts[0]);
      ConcatMore(batch, rest);
      assert [] + rest == rest;
    }
  }

  /** The batches a consumer received, without the polls that came back empty. */
  function Batches(polls: seq<Poll>): seq<seq<Message>>
    decreases |polls|
  {
    if polls == [] || polls[0].Exits() then []
    else (if polls[0].batch == [] then [] else [polls[0].batch]) + Batches(polls[1..])
  }

  lemma {:induction false} ReceivedIsBatches(polls: seq<Poll>)
    ensures Received(polls) == Concat(Batches(polls))
    decreases |polls|
  {
    if polls != [] && !polls[0].Exits() {
      ReceivedIsBatches(polls[1..]);
      if polls[0].batch == [] {
        assert [] + Batches(polls[1..]) == Batches(polls[1..]);
      } else {
        assert ([polls[0].batch] + Batches(polls[1..]))[1..] == Batches(polls[1..]);
      }
    }
  }

  /** The consumer's polls are these batches of items. */
  predicate PollsAre(batches: seq<seq<Message>>, handed: seq<seq<Item>>) {
    |batches| == |handed| &&
    forall i :: 0 <= i < |handed| ==> AreMessages(handed[i]) && batches[i] == DecodeAll(handed[i])
  }

  lemma {:induction false} DecodedConcat(batches: seq<seq<Message>>, handed: seq<seq<Item>>)
    requires PollsAre(batches, handed)
    ensures AreMessages(Concat(handed)) && Concat(batches) == DecodeAll(Concat(handed))
    decreases |handed|
  {
    if handed != [] {
      DecodedConcat(batches[1..], handed[1..]);
      assert DecodeAll(handed[0] + Concat(handed[1..])) == DecodeAll(handed[0]) + DecodeAll(Concat(handed[1..]));
    }
  }

  /** What a consumer received whose polls are the batches that the pops of the run handed over. */
  lemma {:induction false} ReceivedIsDelivered(cfg: Config, s: State, pid: int, total: nat, acts: seq<Action>, polls: seq<Poll>)
    requires cfg.Valid() && Init(cfg, s) && DemoRun(cfg, s, Sender(pid, 0, []), total, acts)
    requires Run(cfg, s, acts) && PollsAre(Batches(polls), Handed(cfg, s, acts))
    ensures |Received(polls)| == |Exec(cfg, s, acts).mem.delivered| && Breaks(PassesChecksum, Received(polls)) == {}
  {
    DemoPairInSequence(cfg, s, pid, total, acts);
    HandedIsDelivered(cfg, s, acts);
    ReceivedIsBatches(polls);
    DecodedConcat(Batches(polls), Handed(cfg, s, acts));
    assert Exec(cfg, s, acts).mem.delivered == Concat(Handed(cfg, s, acts));
    InSequenceHasNoBreaks(Exec(cfg, s, acts).mem.delivered);
  }

  /**
    The demo consumer, its polls the batches that the pops of the run handed over, in order and with
    any number of empty polls in between: it counts every delivered message and no error.
  */
  method ReplayDrain(ghost cfg: Config, ghost s: State, ghost pid: int, ghost total: nat, ghost acts: seq<Action>,
                     polls: seq<Poll>)
    returns (received: nat, errors: nat)
    requires cfg.Valid() && Init(cfg, s) && DemoRun(cfg, s, Sender(pid, 0, []), total, acts)
    requires Run(cfg, s, acts) && PollsAre(Batches(polls), Handed(cfg, s, acts))
    ensures received == |Exec(cfg, s, acts).mem.delivered| && errors == 0
  {
    received, errors := Drain(polls);
    ReceivedIsDelivered(cfg, s, pid, total, acts, polls);
  }

  /** The loads behind a last poll that came back empty: pid, kill(), writeIdx and readIdx. */
  datatype Exit = Exit(loaded: State, toKill: seq<Action>, killed: State, toWrite: seq<Action>, wrote: State,
                       toRead: seq<Action>, read: State)

  /** Consumer h makes these loads after `acts`, and they are the answers of the last poll. */
  ghost predicate LeavesBy(cfg: Config, s: State, acts: seq<Action>, h: nat, e: Exit, last: Poll) {
    && Reaches(cfg, s, acts, e.loaded) && Waits(cfg, e.loaded, e.toKill, h, e.killed)
    && Waits(cfg, e.killed, e.toWrite, h, e.wrote) && Waits(cfg, e.wrote, e.toRead, h, e.read)
    && e.loaded.handles[h].role == Consumer
    && last == Poll([], !SeenGone(e.loaded, e.killed, Producer), e.wrote.mem.w == e.read.mem.r) && last.Exits()
  }

  /**
    The drain loop to its end: when it leaves by its exit test, the loads of which are in the run, it
    has received everything published up to that load of writeIdx, without an error.
  */
  lemma {:induction false} DrainedAtExit(cfg: Config, s: State, pid: int, total: nat, acts: seq<Action>, h: nat, e: Exit,
                                         polls: seq<Poll>)
    requires cfg.Valid() && Init(cfg, s) && DemoRun(cfg, s, Sender(pid, 0, []), total, acts + (e.toKill + e.toWrite))
    requires polls != [] && LeavesBy(cfg, s, acts, h, e, polls[|polls| - 1])
    requires Run(cfg, s, acts + (e.toKill + e.toWrite))
    requires PollsAre(Batches(polls), Handed(cfg, s, acts + (e.toKill + e.toWrite)))
    ensures |Received(polls)| == |e.wrote.mem.published| && Breaks(PassesChecksum, Received(polls)) == {}
    ensures e.loaded.producerPid != 0 && !(e.loaded.producerPid > 0 && e.loaded.producerPid in e.killed.alive)
  {
    InitInv(cfg, s);
    ReachesKeepsInv(cfg, s, acts, e.loaded);
    WaitingKeeps(cfg, e.loaded, e.toKill, h, e.killed);
    WaitingKeeps(cfg, e.killed, e.toWrite, h, e.wrote);
    Then(cfg, e.loaded, e.toKill, e.killed, e.toWrite, e.wrote);
    Then(cfg, s, acts, e.loaded, e.toKill + e.toWrite, e.wrote);
    DrainedAtLoad(cfg, e.wrote, e.toRead, e.read, h);
    ReceivedIsDelivered(cfg, s, pid, total, acts + (e.toKill + e.toWrite), polls);
  }
}
