/** Values shared by the ledger and the consolidation services. */
module Domain {

  datatype Option<+T> = None | Some(value: T)

  const MAX_INT64: int := 0x7fff_ffff_ffff_ffff

  predicate FitsInt64(x: int) {
    -MAX_INT64 - 1 <= x <= MAX_INT64
  }

  /* ---- Identifiers and text ---- */

  predicate IsHex(c: char) {
    '0' <= c <= '9' || 'a' <= c <= 'f' || 'A' <= c <= 'F'
  }

  /** Hexadecimal digits in the grouping of a uuid. */
  predicate IsUuidShape(s: string) {
    |s| == 36 && forall i | 0 <= i < 36 :: if i in {8, 13, 18, 23} then s[i] == '-' else IsHex(s[i])
  }

  /** The UUID pattern every identifier of an event must have. */
  predicate IsUuid(s: string) {
    IsUuidShape(s) && '1' <= s[14] <= '8' && s[19] in {'8', '9', 'a', 'b', 'A', 'B'}
  }

  /** The W3C trace context shape. */
  predicate IsTraceparent(s: string) {
    && |s| == 55
    && forall i | 0 <= i < 55 ::
         if i in {2, 35, 52} then s[i] == '-' else IsHex(s[i]) && !('A' <= s[i] <= 'F')
  }

  function LowerChar(c: char): char {
    if 'A' <= c <= 'Z' then (c as int + 32) as char else c
  }

  function ToLower(s: string): string {
    seq(|s|, i requires 0 <= i < |s| => LowerChar(s[i]))
  }

  function Min(a: nat, b: nat): nat {
    if a < b then a else b
  }

  /* ---- Business dates and instants ----
     A date is the number of days since 0000-01-01, the first date the layout
     YYYY-MM-DD can write; the zero time 0001-01-01 is day 366. */

  type Date = nat

  const ZERO_DATE: Date := 366

  /** 9999-12-31, the last date the layout can write. */
  const MAX_DATE: Date := 3_652_424

  const NANOSECONDS_PER_DAY: int := 86_400_000_000_000

  /** Instants count nanoseconds from the zero time.  An RFC 3339 text has a
      year from 0000 to 9999 and an offset below a day. */
  predicate IsInstant(t: int) {
    -367 * NANOSECONDS_PER_DAY <= t <= 3_652_060 * NANOSECONDS_PER_DAY
  }

  const MAXIMUM_BACKDATE_DAYS: nat := 30

  /** The ledger's calendar rule: a requested date is accepted when it is at
      most thirty days before today and not after it. */
  function Resolve(today: Date, requested: Option<Date>): Option<Date> {
    match requested
    case None => Some(today)
    case Some(d) => if d + MAXIMUM_BACKDATE_DAYS < today || d > today then None else Some(d)
  }

  /* ---- The event "ledger.entry.confirmed.v1" ---- */

  const ENTRY_CONFIRMED_V1 := "ledger.entry.confirmed.v1"
  const CREDIT := "credit"
  const DEBIT := "debit"
  const BRL := "BRL"

  datatype Event = Event(
    id: string, eventType: string, occurredAt: int,
    merchant: string, position: int, entryId: string,
    entryType: string, amount: int, currency: string, date: Date,
    confirmedAt: int, original: Option<string>, traceparent: string)
  {
    /** Validate, of an event whose dates and instants were parsed from text. */
    predicate Valid() {
      && IsUuid(id) && IsUuid(merchant) && IsUuid(entryId)
      && (original.Some? ==> IsUuid(original.value))
      && eventType == ENTRY_CONFIRMED_V1
      && 1 <= position <= MAX_INT64
      && (entryType == CREDIT || entryType == DEBIT)
      && 1 <= amount <= MAX_INT64
      && currency == BRL
      && occurredAt != 0 && confirmedAt != 0 && date != ZERO_DATE
      && IsInstant(occurredAt) && IsInstant(confirmedAt) && date <= MAX_DATE
      && IsTraceparent(traceparent)
    }

    function Canonical(): Event {
      this.(id := ToLower(id), merchant := ToLower(merchant), entryId := ToLower(entryId),
            original := if original.Some? then Some(ToLower(original.value)) else None)
    }

    function Credits(): int { if entryType == CREDIT then amount else 0 }

    function Debits(): int { if entryType == CREDIT then 0 else amount }

    function Net(): int { Credits() - Debits() }
  }

  lemma LowerUuid(s: string)
    requires IsUuid(s)
    ensures IsUuid(ToLower(s)) && ToLower(ToLower(s)) == ToLower(s)
  {
    forall i | 0 <= i < 36
      ensures LowerChar(LowerChar(s[i])) == LowerChar(s[i])
      ensures if i in {8, 13, 18, 23} then LowerChar(s[i]) == '-' else IsHex(LowerChar(s[i]))
    {
      assert if i in {8, 13, 18, 23} then s[i] == '-' else IsHex(s[i]);
    }
    assert ToLower(s)[14] == LowerChar(s[14]) && ToLower(s)[19] == LowerChar(s[19]);
    assert ToLower(ToLower(s)) == ToLower(s);
  }

  /** Canonicalisation keeps a valid event valid and is idempotent. */
  lemma CanonicalStable(e: Event)
    requires e.Valid()
    ensures e.Canonical().Valid() && e.Canonical().Canonical() == e.Canonical()
  {
    LowerUuid(e.id);
    LowerUuid(e.merchant);
    LowerUuid(e.entryId);
    if e.original.Some? {
      LowerUuid(e.original.value);
    }
  }
}
