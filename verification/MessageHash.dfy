/** Messages and their 16-bit DJB2 checksum: the 64-bit wrapping loop, the polynomial it
    evaluates, and which corruptions it detects. */
module MessageHash {
  import opened Arithmetic

  type Byte = b: int | 0 <= b < 256

  const WORD := 0x1_0000_0000_0000_0000   // unsigned long
  const SHORT := 0x1_0000                 // uint16_t
  const SEED := 5381
  const DATA_BYTES := 260

  datatype Message = Message(kind: Byte, hash: int, size: Byte, data: seq<Byte>)

  predicate WellFormed(m: Message) {
    |m.data| == DATA_BYTES && 0 <= m.hash < SHORT
  }

  /** The bytes that go into the checksum; the hash field itself counts as two zeros. */
  function HashedBytes(m: Message): (bytes: seq<Byte>)
    requires WellFormed(m)
    ensures |bytes| == m.size + 5
  {
    [m.kind, 0, 0, m.size] + m.data[..m.size + 1]
  }

  /** Horner's rule in unbounded integers, from `h` on. */
  function Poly(h: nat, bytes: seq<Byte>): nat
    decreases |bytes|
  {
    if bytes == [] then h else Poly(33 * h + bytes[0], bytes[1..])
  }

  function HashOf(m: Message): (h: int)
    requires WellFormed(m)
    ensures 0 <= h < SHORT
  {
    Poly(SEED, HashedBytes(m)) % SHORT
  }

  lemma {:induction false} PolyAppend(h: nat, a: seq<Byte>, b: seq<Byte>)
    ensures Poly(h, a + b) == Poly(Poly(h, a), b)
    decreases |a|
  {
    if a == [] {
      assert a + b == b;
    } else {
      assert (a + b)[1..] == a[1..] + b;
      PolyAppend(33 * h + a[0], a[1..], b);
    }
  }

  // ----- The loop -----

  /** `((hash << 5) + hash) + byte` on an unsigned 64-bit word. */
  function Mix(hash: nat, byte: Byte): (next: nat)
    ensures next < WORD
  {
    ((hash * 32 % WORD + hash) % WORD + byte) % WORD
  }

  /** Wrapping only loses multiples of 2^64. */
  lemma MixWraps(hash: nat, p: nat, byte: Byte)
    requires hash == p % WORD
    ensures Mix(hash, byte) == (33 * p + byte) % WORD
  {
    var q0 := p / WORD;
    var q1 := hash * 32 / WORD;
    var s := hash * 32 % WORD + hash;
    var q2 := s / WORD;
    var u := s % WORD + byte;
    var q3 := u / WORD;
    assert 33 * p + byte == WORD * (33 * q0 + q1 + q2 + q3) + u % WORD;
    DivModUnique(33 * p + byte, WORD, 33 * q0 + q1 + q2 + q3, u % WORD);
  }

  lemma LowBits(p: nat)
    ensures p % WORD % SHORT == p % SHORT
  {
    var k := WORD / SHORT;
    assert p == SHORT * (k * (p / WORD) + p % WORD / SHORT) + p % WORD % SHORT;
    DivModUnique(p, SHORT, k * (p / WORD) + p % WORD / SHORT, p % WORD % SHORT);
  }

  method CalculateDJB2(msg: Message) returns (h: int)
    requires WellFormed(msg)
    ensures h == HashOf(msg)
  {
    hide Mix;
    ghost var bytes := HashedBytes(msg);
    ghost var p := Poly(SEED, bytes[..4]);
    var hash := HashHeader(msg);
    var i := 0;
    while i < msg.size + 1
      invariant 0 <= i <= msg.size + 1
      invariant p == Poly(SEED, bytes[..4 + i]) && hash == p % WORD
    {
      MixWraps(hash, p, msg.data[i]);
      hash := Mix(hash, msg.data[i]);
      assert bytes[..4 + i + 1] == bytes[..4 + i] + [msg.data[i]];
      PolyAppend(SEED, bytes[..4 + i], [msg.data[i]]);
      p := 33 * p + msg.data[i];
      i := i + 1;
    }
    assert bytes[..4 + i] == bytes;
    LowBits(p);
    h := hash % SHORT;
  }

  /** The four steps before the loop. */
  method HashHeader(msg: Message) returns (hash: nat)
    requires WellFormed(msg)
    ensures hash == Poly(SEED, HashedBytes(msg)[..4]) % WORD
  {
    hide Mix;
    hash := SEED;
    ghost var header: seq<Byte> := [msg.kind, 0, 0, msg.size];
    assert HashedBytes(msg)[..4] == header;
    MixWraps(hash, SEED, msg.kind);
    hash := Mix(hash, msg.kind);
    ghost var p := 33 * SEED + msg.kind;
    MixWraps(hash, p, 0);
    hash := Mix(hash, 0);
    MixWraps(hash, 33 * p, 0);
    hash := Mix(hash, 0);
    MixWraps(hash, 33 * (33 * p), msg.size);
    hash := Mix(hash, msg.size);
    HeaderPoly(msg.kind, msg.size);
  }

  lemma HeaderPoly(kind: Byte, size: Byte)
    ensures Poly(SEED, [kind, 0, 0, size]) == 33 * (33 * (33 * (33 * SEED + kind))) + size
  {
    var three: seq<Byte> := [0, 0, size];
    var two: seq<Byte> := [0, size];
    var one: seq<Byte> := [size];
    assert [kind, 0, 0, size][1..] == three && three[1..] == two && two[1..] == one && one[1..] == [];
    var p := 33 * SEED + kind;
    assert Poly(SEED, [kind, 0, 0, size]) == Poly(p, three);
    assert Poly(p, three) == Poly(33 * p, two);
    assert Poly(33 * p, two) == Poly(33 * (33 * p), one);
    assert Poly(33 * (33 * p), one) == Poly(33 * (33 * (33 * p)) + size, []);
  }

  // ----- Which corruptions change the checksum -----

  predicate Congruent(a: int, b: int) {
    (a - b) % SHORT == 0
  }

  lemma MultipleIsZero(x: int, q: int)
    requires x == SHORT * q
    ensures x % SHORT == 0
  {
    DivModUnique(x, SHORT, q, 0);
  }

  /** 33 is invertible modulo 2^16: 33 * 33761 == 17 * 65536 + 1. */
  lemma Cancel33(a: int, b: int, c: int)
    ensures Congruent(33 * a + c, 33 * b + c) <==> Congruent(a, b)
  {
    var d := a - b;
    if d % SHORT == 0 {
      MultipleIsZero(33 * d, 33 * (d / SHORT));
    }
    if 33 * d % SHORT == 0 {
      var m := 33 * d / SHORT;
      MultipleIsZero(d, 33761 * m - 17 * d);
    }
    assert 33 * a + c - (33 * b + c) == 33 * d;
  }

  lemma CongruentIff(a: nat, b: nat)
    ensures Congruent(a, b) <==> a % SHORT == b % SHORT
  {
    if a % SHORT == b % SHORT {
      MultipleIsZero(a - b, a / SHORT - b / SHORT);
    } else if (a - b) % SHORT == 0 {
      DivModUnique(a, SHORT, (a - b) / SHORT + b / SHORT, b % SHORT);
    }
  }

  /** A common suffix neither hides nor causes a difference. */
  lemma {:induction false} SuffixCancels(a: nat, b: nat, suffix: seq<Byte>)
    ensures Congruent(Poly(a, suffix), Poly(b, suffix)) <==> Congruent(a, b)
    decreases |suffix|
  {
    if suffix != [] {
      SuffixCancels(33 * a + suffix[0], 33 * b + suffix[0], suffix[1..]);
      Cancel33(a, b, suffix[0]);
    }
  }

  lemma PolyThree(a: seq<Byte>, b: seq<Byte>, c: seq<Byte>)
    ensures Poly(SEED, a + b + c) == Poly(Poly(Poly(SEED, a), b), c)
  {
    PolyAppend(SEED, a + b, c);
    PolyAppend(SEED, a, b);
  }

  /** Changing one byte always changes the checksum. */
  lemma OneByteChanges(prefix: seq<Byte>, x: Byte, y: Byte, suffix: seq<Byte>)
    requires x != y
    ensures Poly(SEED, prefix + [x] + suffix) % SHORT != Poly(SEED, prefix + [y] + suffix) % SHORT
  {
    var h := Poly(SEED, prefix);
    PolyThree(prefix, [x], suffix);
    PolyThree(prefix, [y], suffix);
    var a, b := 33 * h + x, 33 * h + y;
    assert Poly(h, [x]) == a && Poly(h, [y]) == b;
    SuffixCancels(a, b, suffix);
    assert !Congruent(a, b);
    CongruentIff(Poly(a, suffix), Poly(b, suffix));
  }

  /** Changing two neighbouring bytes goes unnoticed exactly when the changes cancel. */
  lemma TwoBytesUnnoticedIff(prefix: seq<Byte>, x: Byte, x': Byte, y: Byte, y': Byte, suffix: seq<Byte>)
    ensures Poly(SEED, prefix + [x, x'] + suffix) % SHORT == Poly(SEED, prefix + [y, y'] + suffix) % SHORT
       <==> 33 * (x - y) + (x' - y') == 0
  {
    hide Poly;
    var h := Poly(SEED, prefix);
    PolyThree(prefix, [x, x'], suffix);
    PolyThree(prefix, [y, y'], suffix);
    TwoBytes(h, x, x');
    TwoBytes(h, y, y');
    var a, b := 33 * (33 * h + x) + x', 33 * (33 * h + y) + y';
    SuffixCancels(a, b, suffix);
    assert a - b == 33 * (x - y) + (x' - y');
    CongruentIff(Poly(a, suffix), Poly(b, suffix));
  }

  lemma TwoBytes(h: nat, x: Byte, y: Byte)
    ensures Poly(h, [x, y]) == 33 * (33 * h + x) + y
  {
    var one: seq<Byte> := [y];
    assert [x, y][1..] == one;
    assert Poly(33 * h + x, one) == Poly(33 * (33 * h + x) + y, one[1..]);
  }

  /** The messages agree in size, and differ in the type (`i == 0`) or in byte `i - 1` of the
      data, and in nothing else that belongs to the message. */
  predicate OneByteCorrupted(m: Message, m': Message, i: nat)
    requires WellFormed(m) && WellFormed(m')
  {
    && m.size == m'.size && i <= m.size + 1
    && (m.kind != m'.kind <==> i == 0)
    && forall j :: 0 <= j <= m.size ==> (m.data[j] != m'.data[j] <==> j + 1 == i)
  }

  /** The hash a producer puts into its message. */
  predicate Genuine(m: Message) {
    WellFormed(m) && m.hash == HashOf(m)
  }

  /** If one byte of the type or the data of a genuine message changes on the way, the
      consumer's check fails. */
  lemma CorruptionDetected(m: Message, m': Message, i: nat)
    requires Genuine(m) && WellFormed(m') && m'.hash == m.hash && OneByteCorrupted(m, m', i)
    ensures HashOf(m') != m'.hash
  {
    var s, t := HashedBytes(m), HashedBytes(m');
    var k := if i == 0 then 0 else i + 3;
    forall j | 0 <= j < |s|
      ensures s[j] != t[j] <==> j == k
    {
      if j >= 4 {
        assert s[j] == m.data[j - 4] && t[j] == m'.data[j - 4];
      }
    }
    assert s == s[..k] + [s[k]] + s[k + 1..];
    assert t == s[..k] + [t[k]] + s[k + 1..];
    OneByteChanges(s[..k], s[k], t[k], s[k + 1..]);
  }

  // ----- The fields -----

  /** The checksum in the fields: seed, type, two zeros, size, and the data up to and with
      the byte after the last. */
  lemma HashInFields(m: Message)
    requires WellFormed(m)
    ensures HashOf(m) ==
            Poly(33 * (33 * (33 * (33 * 5381 + m.kind))) + m.size, m.data[..m.size + 1]) % 65536
  {
    hide Poly;
    PolyAppend(SEED, [m.kind, 0, 0, m.size], m.data[..m.size + 1]);
    HeaderPoly(m.kind, m.size);
  }

  /** 33 to the power of `n`. */
  function Power33(n: nat): nat {
    if n == 0 then 1 else 33 * Power33(n - 1)
  }

  /** Each byte weighs 33 times what the next one does. */
  lemma {:induction false} PolyWeighs(h: nat, bytes: seq<Byte>)
    ensures Poly(h, bytes) == h * Power33(|bytes|) + Poly(0, bytes)
    decreases |bytes|
  {
    if bytes != [] {
      PolyWeighs(33 * h + bytes[0], bytes[1..]);
      PolyWeighs(bytes[0], bytes[1..]);
      var p := Power33(|bytes| - 1);
      assert (33 * h + bytes[0]) * p == h * (33 * p) + bytes[0] * p;
    }
  }

  /** In the shortest message only the type and one byte of data count. */
  lemma ShortestHash(m: Message)
    requires WellFormed(m) && m.size == 0
    ensures HashOf(m) == (33 * 33 * 33 * 33 * 33 * 5381 + 33 * 33 * 33 * 33 * m.kind + m.data[0]) % 65536
  {
    HashInFields(m);
    var one := m.data[..1];
    assert one == [m.data[0]] && one[1..] == [];
  }

  /** A changed type is detected. */
  lemma KindCounts(m: Message, kind: Byte)
    requires Genuine(m) && kind != m.kind
    ensures HashOf(m.(kind := kind)) != m.hash
  {
    CorruptionDetected(m, m.(kind := kind), 0);
  }

  /** So is a changed byte of the data that belongs to the message. */
  lemma DataCounts(m: Message, i: nat, x: Byte)
    requires Genuine(m) && i <= m.size && x != m.data[i]
    ensures HashOf(m.(data := m.data[i := x])) != m.hash
  {
    CorruptionDetected(m, m.(data := m.data[i := x]), i + 1);
  }

  /** What lies behind it in the buffer does not count, nor does the hash field itself. */
  lemma PaddingIgnored(m: Message, i: nat, x: Byte, hash: int)
    requires WellFormed(m) && m.size < i < 260 && 0 <= hash < 65536
    ensures HashOf(m.(data := m.data[i := x], hash := hash)) == HashOf(m)
  {
    assert m.data[i := x][..m.size + 1] == m.data[..m.size + 1];
  }

  /** A genuine message can never be mistaken for the all-zero shutdown sentinel. */
  lemma GenuineIsNotSentinel(m: Message)
    requires Genuine(m) && m.kind == 0 && m.size == 0
    ensures m.hash != 0
  {
    var bytes := HashedBytes(m);
    var d := m.data[0];
    assert bytes == [0, 0, 0, 0] + [d];
    PolyAppend(SEED, [0, 0, 0, 0], [d]);
    HeaderPoly(0, 0);
    var p := 33 * (33 * (33 * (33 * SEED)));
    assert Poly(p, [d]) == 33 * p + d;
    DivModUnique(33 * p, SHORT, 33 * p / SHORT, 37);
    DivModUnique(33 * p + d, SHORT, 33 * p / SHORT, 37 + d);
  }

  /** A message with random type, size and contents; `stale` is what the buffer held. */
  method CreateRandomMessage(kind: Byte, size: Byte, random: seq<Byte>, stale: seq<Byte>) returns (msg: Message)
    requires |random| >= size + 1 && |stale| == DATA_BYTES
    ensures Genuine(msg) && msg.kind == kind && msg.size == size && |msg.data| == 260
    ensures msg.data[..size + 1] == random[..size + 1]
    ensures var aligned := (size + 4) / 4 * 4;
            && size + 1 <= aligned <= DATA_BYTES
            && (forall i :: size + 1 <= i < aligned ==> msg.data[i] == 0)
            && msg.data[aligned..] == stale[aligned..]
  {
    var realLen := size + 1;
    var alignedLen := (size + 4) / 4 * 4;
    var data := stale;
    var i := 0;
    while i < alignedLen
      invariant 0 <= i <= alignedLen <= |data| == DATA_BYTES
      invariant forall k :: 0 <= k < i ==> data[k] == if k < realLen then random[k] else 0
      invariant forall k :: i <= k < DATA_BYTES ==> data[k] == stale[k]
    {
      data := data[i := if i < realLen then random[i] else 0];
      i := i + 1;
    }
    msg := Message(kind, 0, size, data);
    var h := CalculateDJB2(msg);
    assert HashedBytes(msg) == HashedBytes(msg.(hash := h));
    msg := msg.(hash := h);
  }
}
