/** The ledger's idempotent write transactions.

    The tables hold uuid values, here as numbers; texts are parsed at the
    boundary.  A key stands for its hash and a request for its hash; generated
    identifiers, the clock, the merchant's calendar day and a storage failure
    come in a Context. */
module Ledger {
  import opened Domain

  /** A uuid value; 0 is the nil uuid. */
  type Id = nat

  function HexDigit(c: char): nat
    requires IsHex(c)
  {
    if c <= '9' then c as int - '0' as int
    else if c >= 'a' then c as int - 'a' as int + 10
    else c as int - 'A' as int + 10
  }

  function HexValue(s: string): nat
    requires forall i | 0 <= i < |s| :: s[i] == '-' || IsHex(s[i])
  {
    if s == [] then 0
    else
      var high := HexValue(s[..|s| - 1]);
      if s[|s| - 1] == '-' then high else 16 * high + HexDigit(s[|s| - 1])
  }

  /** ParseID: the uuid shape, not all zero. */
  function ParseId(s: string): Option<Id> {
    if IsUuidShape(s) && HexValue(s) != 0 then Some(HexValue(s)) else None
  }

  datatype Kind = Credit | Debit
  {
    function Opposite(): Kind { if this == Credit then Debit else Credit }
  }

  datatype Entry = Entry(
    id: Id, merchant: Id, position: nat, kind: Kind, amount: int, date: Date,
    description: string, confirmedAt: int, original: Option<Id>)
  {
    function Signed(): int { if kind == Credit then amount else -amount }
  }

  datatype Operation = CreateEntry | ReverseEntry

  datatype Key = Key(merchant: Id, operation: Operation, key: string)

  /** What the request hash covers; a reversal hashes the original's id as written. */
  datatype Request =
    | Creation(kind: string, amount: int, currency: string, date: Option<Date>, description: string)
    | Reversal(text: string, original: Id)

  /** An idempotency_record row; response is None until it is completed. */
  datatype Record = Record(request: Request, response: Option<Entry>)

  /** What the payload of an outbox_event row is made of. */
  datatype Outgoing = Outgoing(entry: Entry, traceparent: string)
  {
    /** The event written for an entry; text prints a uuid. */
    function Payload(text: Id -> string, eventId: Id): Event {
      Event(text(eventId), ENTRY_CONFIRMED_V1, entry.confirmedAt, text(entry.merchant), entry.position,
            text(entry.id), if entry.kind == Credit then CREDIT else DEBIT, entry.amount, BRL, entry.date,
            entry.confirmedAt, if entry.original.Some? then Some(text(entry.original.value)) else None,
            traceparent)
    }
  }

  datatype Tables = Tables(
    positions: map<Id, nat>, entries: map<Id, Entry>, records: map<Key, Record>, outbox: map<Id, Outgoing>)

  const NO_TABLES := Tables(map[], map[], map[], map[])

  /** A validated command: its merchant and original are parsed. */
  datatype Command = Command(merchant: Id, key: string, request: Request, traceparent: string)
  {
    function Operation(): Operation { if request.Creation? then CreateEntry else ReverseEntry }

    function IdempotencyKey(): Key { Key(merchant, Operation(), key) }
  }

  /** A command as it arrives, with its identifiers as text. */
  datatype Input =
    | CreateInput(merchant: string, key: string, kind: string, amount: int, currency: string,
                  date: Option<Date>, description: string, traceparent: string)
    | ReverseInput(merchant: string, original: string, key: string, traceparent: string)

  datatype Context = Context(entryId: Id, eventId: Id, now: int, today: Date, storageFails: bool)

  datatype Error =
    | InvalidMerchant | InvalidId | InvalidArgument | InvalidEntryType | InvalidCurrency | InvalidAmount
    | InvalidBusinessDate | DescriptionTooLong | IdempotencyConflict | EntryNotFound | AlreadyReversed
    | ReversalNotAllowed | Storage

  datatype Result<+T> = Ok(value: T) | Err(error: Error)

  predicate AllZero(s: string) {
    forall i | 0 <= i < |s| :: s[i] == '0'
  }

  /** ValidateTraceparent: the W3C shape, without the reserved version, all-zero
      identifiers or, under version 00, unknown flags. */
  predicate IsStrictTraceparent(s: string) {
    && IsTraceparent(s)
    && s[..2] != "ff" && !AllZero(s[3..35]) && !AllZero(s[36..52])
    && (s[..2] == "00" ==> s[53..] == "00" || s[53..] == "01")
  }

  /** The checks made before the transaction begins. */
  function Validate(input: Input): Result<Command> {
    var merchant := ParseId(input.merchant);
    if merchant.None? then Err(InvalidMerchant)
    else if input.ReverseInput? && ParseId(input.original).None? then Err(InvalidId)
    else if input.key == "" || !IsStrictTraceparent(input.traceparent) then Err(InvalidArgument)
    else
      Ok(Command(merchant.value, input.key,
                 if input.ReverseInput? then Reversal(input.original, ParseId(input.original).value)
                 else Creation(input.kind, input.amount, input.currency, input.date, input.description),
                 input.traceparent))
  }

  function Last(t: Tables, merchant: Id): nat {
    if merchant in t.positions then t.positions[merchant] else 0
  }

  predicate Reversed(t: Tables, id: Id) {
    exists k | k in t.entries :: t.entries[k].original == Some(id)
  }

  /** NewEntry: the domain's checks on a built entry. */
  function NewEntry(e: Entry): Result<Entry> {
    if e.id == 0 then Err(InvalidId)
    else if e.merchant == 0 then Err(InvalidMerchant)
    else if e.amount <= 0 then Err(InvalidAmount)
    else if e.date == ZERO_DATE || e.confirmedAt == 0 then Err(InvalidBusinessDate)
    else if |e.description| > 500 then Err(DescriptionTooLong)
    else Ok(e)
  }

  function ParseKind(text: string): Result<Kind> {
    if ToLower(text) == "credit" then Ok(Credit)
    else if ToLower(text) == "debit" then Ok(Debit)
    else Err(InvalidEntryType)
  }

  /** The entry a creation builds at a given position. */
  function BuildCreation(c: Command, x: Context, position: nat): Result<Entry>
    requires c.request.Creation?
  {
    var kind := ParseKind(c.request.kind);
    if kind.Err? then Err(kind.error)
    else if c.request.currency != BRL then Err(InvalidCurrency)
    else if c.request.amount <= 0 then Err(InvalidAmount)
    else if Resolve(x.today, c.request.date).None? then Err(InvalidBusinessDate)
    else NewEntry(Entry(x.entryId, c.merchant, position, kind.value, c.request.amount,
                        Resolve(x.today, c.request.date).value, c.request.description, x.now, None))
  }

  /** The reversal of an original at a given position. */
  function BuildReversal(x: Context, original: Entry, position: nat): Result<Entry> {
    if original.original.Some? then Err(ReversalNotAllowed)
    else NewEntry(Entry(x.entryId, original.merchant, position, original.kind.Opposite(), original.amount,
                        x.today, "", x.now, Some(original.id)))
  }

  /** EntryForUpdate: the merchant's own entry, not yet reversed. */
  function FindOriginal(t: Tables, merchant: Id, id: Id): Result<Entry> {
    if id !in t.entries || t.entries[id].merchant != merchant then Err(EntryNotFound)
    else if Reversed(t, id) then Err(AlreadyReversed)
    else Ok(t.entries[id])
  }

  function Build(t: Tables, c: Command, x: Context): Result<Entry> {
    var position := Last(t, c.merchant) + 1;
    match c.request
    case Creation(_, _, _, _, _) => BuildCreation(c, x, position)
    case Reversal(_, id) =>
      var original := FindOriginal(t, c.merchant, id);
      if original.Err? then original else BuildReversal(x, original.value, position)
  }

  /** All rows of a successful write, committed together. */
  function Commit(t: Tables, c: Command, eventId: Id, e: Entry): Tables {
    Tables(t.positions[e.merchant := e.position], t.entries[e.id := e],
           t.records[c.IdempotencyKey() := Record(c.request, Some(e))],
           t.outbox[eventId := Outgoing(e, c.traceparent)])
  }

  /** A create or reverse command as one transaction. */
  function Execute(t: Tables, c: Command, x: Context): (Tables, Result<Entry>) {
    if x.storageFails then (t, Err(Storage))
    else if c.IdempotencyKey() in t.records then
      var record := t.records[c.IdempotencyKey()];
      if record.request != c.request then (t, Err(IdempotencyConflict))
      else if record.response.None? then (t, Err(Storage))
      else (t, Ok(record.response.value))
    else
      match Build(t, c, x)
      case Err(error) => (t, Err(error))
      case Ok(e) =>
        if e.id in t.entries || x.eventId in t.outbox then (t, Err(Storage))
        else (Commit(t, c, x.eventId, e), Ok(e))
  }
}
