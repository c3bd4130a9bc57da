/** The payload fingerprint: a hash of a length-prefixed encoding of the
    canonical event.  The hash and the two time layouts belong to the standard
    library and are parameters. */
module Fingerprint {
  import opened Domain

  /** A symbol is a byte of a number or a character of a text. */
  type Bytes = seq<int>

  const WORD: int := 0x1_0000_0000_0000_0000

  /** The base-256 digit of weight 256^k, also for negative n. */
  function Digit(n: int, k: nat): (d: int)
    ensures 0 <= d < 256
    decreases k
  {
    if k == 0 then n % 256 else Digit(n / 256, k - 1)
  }

  /** The eight big-endian bytes of an unsigned length or a two's complement int64. */
  function Word(n: int): Bytes {
    seq(8, i requires 0 <= i < 8 => Digit(n, 7 - i))
  }

  function Weight(k: nat): nat {
    if k == 0 then 1 else 256 * Weight(k - 1)
  }

  /** Numbers with the same k low digits differ by a multiple of 256^k. */
  lemma {:induction false} SameDigits(n: int, m: int, k: nat) returns (q: int)
    requires forall i: nat | i < k :: Digit(n, i) == Digit(m, i)
    ensures n - m == Weight(k) * q
    decreases k
  {
    if k == 0 {
      q := n - m;
    } else {
      forall i: nat | i < k - 1
        ensures Digit(n / 256, i) == Digit(m / 256, i)
      {
        assert Digit(n, i + 1) == Digit(m, i + 1);
      }
      q := SameDigits(n / 256, m / 256, k - 1);
      assert Digit(n, 0) == Digit(m, 0);
      assert n - m == 256 * (n / 256 - m / 256) == 256 * (Weight(k - 1) * q);
    }
  }

  lemma WeightOfWord()
    ensures Weight(8) == WORD
  {
    assert Weight(2) == 65536 && Weight(4) == 0x1_0000_0000 && Weight(6) == 0x1_0000_0000_0000;
  }

  lemma {:induction false} WordPrefix(m: int, n: int, x: Bytes, y: Bytes)
    requires -WORD < m - n < WORD && Word(m) + x == Word(n) + y
    ensures m == n && x == y
  {
    forall i: nat | i < 8
      ensures Digit(m, i) == Digit(n, i)
    {
      assert (Word(m) + x)[7 - i] == Digit(m, i) && (Word(n) + y)[7 - i] == Digit(n, i);
    }
    WeightOfWord();
    var q := SameDigits(m, n, 8);
    Split(Word(m), Word(n), x, y);
  }

  /** Read most significant byte first, a word is its length or its int64 in two's
      complement. */
  lemma {:induction false} WordIs(n: int)
    requires -0x8000_0000_0000_0000 <= n < 0x1_0000_0000_0000_0000
    ensures |Word(n)| == 8 && forall i | 0 <= i < 8 :: 0 <= Word(n)[i] < 256
    ensures
      var w := Word(n);
      w[7] + 0x100 * (w[6] + 0x100 * (w[5] + 0x100 * (w[4] + 0x100 * (w[3] + 0x100 * (w[2] + 0x100 * (w[1] + 0x100 * w[0]))))))
      == if n < 0 then n + 0x1_0000_0000_0000_0000 else n
  {
    WordDigits(n);
    FourDigits(n);
    FourDigits(n / 256 / 256 / 256 / 256);
  }

  lemma {:induction false} FourDigits(n: int)
    ensures n == n % 256 + 256 * (n / 256 % 256 + 256 * (n / 256 / 256 % 256 + 256 * (n / 256 / 256 / 256 % 256)))
                 + 0x1_0000_0000 * (n / 256 / 256 / 256 / 256)
  {
  }

  /** Each byte is a quotient's remainder. */
  lemma {:induction false} WordDigits(n: int)
    ensures
      var w, m := Word(n), n / 256 / 256 / 256 / 256;
      && |w| == 8 && (forall i | 0 <= i < 8 :: 0 <= w[i] < 256)
      && w[7] == n % 256 && w[6] == n / 256 % 256 && w[5] == n / 256 / 256 % 256 && w[4] == n / 256 / 256 / 256 % 256
      && w[3] == m % 256 && w[2] == m / 256 % 256 && w[1] == m / 256 / 256 % 256 && w[0] == m / 256 / 256 / 256 % 256
  {
    LowDigits(n, 4);
    LowDigits(n / 256 / 256 / 256 / 256, 0);
  }

  /** The four lowest digits, and the others as those of the quotient. */
  lemma {:induction false} LowDigits(n: int, k: nat)
    ensures Digit(n, 0) == n % 256 && Digit(n, 1) == n / 256 % 256
    ensures Digit(n, 2) == n / 256 / 256 % 256 && Digit(n, 3) == n / 256 / 256 / 256 % 256
    ensures forall i: nat | i < k :: Digit(n, i + 4) == Digit(n / 256 / 256 / 256 / 256, i)
  {
    var n1, n2, n3 := n / 256, n / 256 / 256, n / 256 / 256 / 256;
    assert Digit(n, 1) == Digit(n1, 0);
    assert Digit(n, 2) == Digit(n1, 1) == Digit(n2, 0);
    assert Digit(n, 3) == Digit(n1, 2) == Digit(n2, 1) == Digit(n3, 0);
    forall i: nat | i < k
      ensures Digit(n, i + 4) == Digit(n3 / 256, i)
    {
      assert Digit(n, i + 4) == Digit(n1, i + 3) == Digit(n2, i + 2) == Digit(n3, i + 1);
    }
  }

  datatype Field = Text(text: string) | Number(number: int)

  /** Texts are shorter than the largest length prefix; numbers are int64. */
  predicate Encodable(f: Field) {
    match f
    case Text(s) => |s| < WORD
    case Number(n) => FitsInt64(n)
  }

  function Symbols(s: string): Bytes {
    seq(|s|, i requires 0 <= i < |s| => s[i] as int)
  }

  /** writeString and writeInt: a length before each text, a word per number. */
  function Write(f: Field): Bytes {
    match f
    case Text(s) => Word(|s|) + Symbols(s)
    case Number(n) => Word(n)
  }

  function Encode(fs: seq<Field>): Bytes {
    if fs == [] then [] else Write(fs[0]) + Encode(fs[1..])
  }

  predicate SameShape(fs: seq<Field>, gs: seq<Field>) {
    |fs| == |gs| && forall i | 0 <= i < |fs| :: fs[i].Text? == gs[i].Text?
  }

  lemma SymbolsInjective(s: string, t: string)
    requires Symbols(s) == Symbols(t)
    ensures s == t
  {
    assert |Symbols(s)| == |Symbols(t)|;
    forall i | 0 <= i < |s|
      ensures s[i] == t[i]
    {
      assert Symbols(s)[i] == Symbols(t)[i];
    }
  }

  lemma Split(p: Bytes, q: Bytes, x: Bytes, y: Bytes)
    requires |p| == |q| && p + x == q + y
    ensures p == q && x == y
  {
    assert p == (p + x)[..|p|] && q == (q + y)[..|p|];
    assert x == (p + x)[|p|..] && y == (q + y)[|p|..];
  }

  lemma {:induction false} TextPrefix(s: string, t: string, x: Bytes, y: Bytes)
    requires |s| < WORD && |t| < WORD && Word(|s|) + Symbols(s) + x == Word(|t|) + Symbols(t) + y
    ensures s == t && x == y
  {
    var p, q := Symbols(s), Symbols(t);
    assert Word(|s|) + p + x == Word(|s|) + (p + x) && Word(|t|) + q + y == Word(|t|) + (q + y);
    WordPrefix(|s|, |t|, p + x, q + y);
    Split(p, q, x, y);
    SymbolsInjective(s, t);
  }

  /** The length prefix makes a field readable whatever follows it. */
  lemma {:induction false} WritePrefix(f: Field, g: Field, x: Bytes, y: Bytes)
    requires Encodable(f) && Encodable(g) && f.Text? == g.Text? && Write(f) + x == Write(g) + y
    ensures f == g && x == y
  {
    match f
    case Text(s) => TextPrefix(s, g.text, x, y);
    case Number(n) => WordPrefix(n, g.number, x, y);
  }

  lemma {:induction false} EncodeInjective(fs: seq<Field>, gs: seq<Field>)
    requires SameShape(fs, gs)
    requires (forall f | f in fs :: Encodable(f)) && forall g | g in gs :: Encodable(g)
    requires Encode(fs) == Encode(gs)
    ensures fs == gs
  {
    if fs != [] {
      WritePrefix(fs[0], gs[0], Encode(fs[1..]), Encode(gs[1..]));
      EncodeInjective(fs[1..], gs[1..]);
      assert fs == [fs[0]] + fs[1..] && gs == [gs[0]] + gs[1..];
    }
  }

  /** The RFC 3339 and YYYY-MM-DD layouts of instants and dates. */
  datatype Layouts = Layouts(instant: int -> string, day: Date -> string)
  {
    /** They tell apart, in a short text, whatever they can write. */
    ghost predicate Faithful() {
      && (forall x, y | IsInstant(x) && IsInstant(y) && instant(x) == instant(y) :: x == y)
      && (forall x: Date, y: Date | x <= MAX_DATE && y <= MAX_DATE && day(x) == day(y) :: x == y)
      && (forall x | IsInstant(x) :: |instant(x)| < WORD)
      && (forall x: Date | x <= MAX_DATE :: |day(x)| < WORD)
    }
  }

  function Characters(n: int): string {
    seq(9, i requires 0 <= i < 9 => Digit(n, i) as char)
  }

  lemma {:induction false} CharactersInjective(m: int, n: int)
    requires Characters(m) == Characters(n) && -256 * WORD < m - n < 256 * WORD
    ensures m == n
  {
    forall i: nat | i < 9
      ensures Digit(m, i) == Digit(n, i)
    {
      assert Characters(m)[i] == Characters(n)[i];
    }
    WeightOfWord();
    assert Weight(9) == 256 * Weight(8);
    var q := SameDigits(m, n, 9);
  }

  /** Such layouts exist. */
  lemma {:induction false} FaithfulLayouts() returns (ls: Layouts)
    ensures ls.Faithful()
  {
    ls := Layouts(x => Characters(x), d => Characters(d));
    forall x, y | IsInstant(x) && IsInstant(y) && ls.instant(x) == ls.instant(y)
      ensures x == y
    {
      CharactersInjective(x, y);
    }
    forall x: Date, y: Date | x <= MAX_DATE && y <= MAX_DATE && ls.day(x) == ls.day(y)
      ensures x == y
    {
      CharactersInjective(x, y);
    }
  }

  function OriginalText(e: Event): string {
    if e.original.Some? then e.original.value else ""
  }

  /** The fields in the order they are written. */
  function Fields(ls: Layouts, e: Event): seq<Field> {
    [Text(e.id), Text(e.eventType), Text(ls.instant(e.occurredAt)), Text(e.merchant), Number(e.position),
     Text(e.entryId), Text(e.entryType), Number(e.amount), Text(e.currency), Text(ls.day(e.date)),
     Text(ls.instant(e.confirmedAt)), Text(OriginalText(e)), Text(e.traceparent)]
  }

  function Preimage(ls: Layouts, e: Event): Bytes {
    Encode(Fields(ls, e.Canonical()))
  }

  /** What the pre-image cannot tell apart: a missing original and an empty one. */
  function Normal(e: Event): Event {
    if e.original == Some("") then e.(original := None) else e
  }

  ghost predicate EventEncodable(e: Event) {
    && |e.id| < WORD && |e.eventType| < WORD && |e.merchant| < WORD && |e.entryId| < WORD
    && |e.entryType| < WORD && |e.currency| < WORD && |OriginalText(e)| < WORD && |e.traceparent| < WORD
    && FitsInt64(e.position) && FitsInt64(e.amount)
    && IsInstant(e.occurredAt) && IsInstant(e.confirmedAt) && e.date <= MAX_DATE
  }

  lemma {:induction false} FieldsDetermineEvent(ls: Layouts, a: Event, b: Event)
    requires ls.Faithful() && EventEncodable(a) && EventEncodable(b) && Fields(ls, a) == Fields(ls, b)
    ensures Normal(a) == Normal(b)
  {
    var fs, gs := Fields(ls, a), Fields(ls, b);
    assert fs[0] == gs[0] && fs[1] == gs[1] && fs[2] == gs[2] && fs[3] == gs[3] && fs[4] == gs[4];
    assert fs[5] == gs[5] && fs[6] == gs[6] && fs[7] == gs[7] && fs[8] == gs[8] && fs[9] == gs[9];
    assert fs[10] == gs[10] && fs[11] == gs[11] && fs[12] == gs[12];
  }

  lemma {:induction false} FieldsEncodable(ls: Layouts, e: Event)
    requires ls.Faithful() && EventEncodable(e)
    ensures forall f | f in Fields(ls, e) :: Encodable(f)
  {
  }

  lemma {:induction false} EncodedEqualIff(ls: Layouts, c: Event, d: Event)
    requires ls.Faithful() && EventEncodable(c) && EventEncodable(d)
    requires (forall f | f in Fields(ls, c) :: Encodable(f)) && forall f | f in Fields(ls, d) :: Encodable(f)
    ensures Encode(Fields(ls, c)) == Encode(Fields(ls, d)) <==> Normal(c) == Normal(d)
  {
    var fs, gs := Fields(ls, c), Fields(ls, d);
    if Encode(fs) == Encode(gs) {
      EncodeInjective(fs, gs);
      FieldsDetermineEvent(ls, c, d);
    } else {
      assert Normal(c) == Normal(d) ==> fs == gs;
    }
  }

  /** Two events have the same pre-image exactly when their canonical fields
      agree up to a missing versus empty original. */
  lemma {:induction false} PreimageEqualIff(ls: Layouts, a: Event, b: Event)
    requires ls.Faithful() && EventEncodable(a) && EventEncodable(b)
    ensures Preimage(ls, a) == Preimage(ls, b) <==> Normal(a.Canonical()) == Normal(b.Canonical())
  {
    FieldsEncodable(ls, a.Canonical());
    FieldsEncodable(ls, b.Canonical());
    EncodedEqualIff(ls, a.Canonical(), b.Canonical());
  }

  /** The thirteen canonical fields, one after another. */
  ghost predicate ListsFields(ls: Layouts, e: Event, gs: seq<Field>)
    requires |gs| == 13
  {
    && gs[0] == Text(ToLower(e.id)) && gs[1] == Text(e.eventType) && gs[2] == Text(ls.instant(e.occurredAt))
    && gs[3] == Text(ToLower(e.merchant)) && gs[4] == Number(e.position) && gs[5] == Text(ToLower(e.entryId))
    && gs[6] == Text(e.entryType) && gs[7] == Number(e.amount) && gs[8] == Text(e.currency)
    && gs[9] == Text(ls.day(e.date)) && gs[10] == Text(ls.instant(e.confirmedAt))
    && gs[11] == Text(if e.original.Some? then ToLower(e.original.value) else "") && gs[12] == Text(e.traceparent)
  }

  /** The pre-image is the writing of these fields in this order and of no other
      list of texts and numbers at the same places. */
  lemma {:induction false} PreimageLists(ls: Layouts, e: Event, gs: seq<Field>)
    requires ls.Faithful() && EventEncodable(e) && forall g | g in gs :: Encodable(g)
    requires |gs| == 13 && forall i | 0 <= i < 13 :: gs[i].Number? <==> i == 4 || i == 7
    ensures Encode(gs) == Preimage(ls, e) <==> ListsFields(ls, e, gs)
  {
    FieldsEncodable(ls, e.Canonical());
    FieldsShape(ls, e.Canonical());
    EncodedOnce(gs, Fields(ls, e.Canonical()));
    FieldsAre(ls, e, gs);
  }

  lemma {:induction false} EncodedOnce(fs: seq<Field>, gs: seq<Field>)
    requires SameShape(fs, gs) && (forall f | f in fs :: Encodable(f)) && forall g | g in gs :: Encodable(g)
    ensures Encode(fs) == Encode(gs) <==> fs == gs
  {
    if Encode(fs) == Encode(gs) {
      EncodeInjective(fs, gs);
    }
  }

  lemma {:induction false} FieldsShape(ls: Layouts, e: Event)
    ensures |Fields(ls, e)| == 13 && forall i | 0 <= i < 13 :: Fields(ls, e)[i].Number? <==> i == 4 || i == 7
  {
  }

  lemma {:induction false} FieldsAre(ls: Layouts, e: Event, gs: seq<Field>)
    requires |gs| == 13
    ensures gs == Fields(ls, e.Canonical()) <==> ListsFields(ls, e, gs)
  {
    var fs := Fields(ls, e.Canonical());
    assert gs == fs <==> forall i | 0 <= i < 13 :: gs[i] == fs[i];
  }

  /** A fingerprint that tells valid events apart. */
  ghost predicate CollisionFree(fp: Event -> string) {
    forall a: Event, b: Event | a.Valid() && b.Valid() && fp(a) == fp(b) :: a.Canonical() == b.Canonical()
  }

  /** With a collision-free hash, validated events with the same fingerprint
      are the same event: their originals are UUIDs, never empty. */
  lemma {:induction false} FingerprintIsCollisionFree(ls: Layouts, hash: Bytes -> string)
    requires ls.Faithful() && forall x, y | hash(x) == hash(y) :: x == y
    ensures CollisionFree(e => hash(Preimage(ls, e)))
  {
    forall a: Event, b: Event | a.Valid() && b.Valid() && hash(Preimage(ls, a)) == hash(Preimage(ls, b))
      ensures a.Canonical() == b.Canonical()
    {
      PreimageEqualIff(ls, a, b);
      CanonicalStable(a);
      CanonicalStable(b);
    }
  }

  /* ---- The assumptions can be met ---- */

  /** A run of one letter and a stop, for each symbol. */
  function Strokes(n: int): string {
    if n >= 0 then seq(n, _ => '+') + "." else seq(-n, _ => '-') + "."
  }

  function Tally(x: Bytes): string {
    if x == [] then "" else Strokes(x[0]) + Tally(x[1..])
  }

  lemma {:induction false} StrokesPrefix(m: int, n: int, x: string, y: string)
    requires Strokes(m) + x == Strokes(n) + y
    ensures m == n && x == y
  {
    var s, t := Strokes(m) + x, Strokes(n) + y;
    var a, b := |Strokes(m)| - 1, |Strokes(n)| - 1;
    assert s[a] == '.' && t[b] == '.';
    assert forall i | 0 <= i < a :: s[i] != '.';
    assert forall i | 0 <= i < b :: t[i] != '.';
    assert a == b;
    assert a > 0 ==> s[0] == t[0];
    assert x == s[a + 1..] && y == t[b + 1..];
  }

  lemma {:induction false} TallyInjective(x: Bytes, y: Bytes)
    requires Tally(x) == Tally(y)
    ensures x == y
  {
    if x != [] && y != [] {
      StrokesPrefix(x[0], y[0], Tally(x[1..]), Tally(y[1..]));
      TallyInjective(x[1..], y[1..]);
      assert x == [x[0]] + x[1..] && y == [y[0]] + y[1..];
    }
  }

  /** A collision-free fingerprint exists, made of layouts and a hash as assumed. */
  lemma {:induction false} CollisionFreeFingerprint() returns (fp: Event -> string)
    ensures CollisionFree(fp)
  {
    var ls := FaithfulLayouts();
    var hash := (x: Bytes) => Tally(x);
    forall x, y | hash(x) == hash(y)
      ensures x == y
    {
      TallyInjective(x, y);
    }
    FingerprintIsCollisionFree(ls, hash);
    fp := e => hash(Preimage(ls, e));
  }

  /** Appends the fields to the hash input one by one. */
  method WriteEvent(ls: Layouts, event: Event) returns (buffer: Bytes)
    ensures buffer == Preimage(ls, event)
  {
    var fs := Fields(ls, event.Canonical());
    buffer := [];
    for i := 0 to |fs|
      invariant buffer + Encode(fs[i..]) == Encode(fs)
    {
      assert fs[i..][0] == fs[i] && fs[i..][1..] == fs[i + 1..];
      buffer := buffer + Write(fs[i]);
    }
  }
}
