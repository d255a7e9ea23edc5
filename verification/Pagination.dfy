/**
 Cursor pagination. A page is a slice, its cursor is opaque to the client, and a
 client that follows `nextCursor` sees the whole list.

 The walk is proved for every codec that reads back what it wrote, so that
 nothing about it depends on what a cursor looks like; `CURSOR` is the codec the
 server uses, a decimal offset in base64url.
 */
module Pagination {
  import opened Text
  import opened Base64Url

  /** The longest a Rust slice can be, `isize::MAX`. */
  const MAX_ITEMS: nat := 0x7fff_ffff_ffff_ffff

  /** `-32602`, or the overflow panic of `offset + limit`. */
  datatype Fault = InvalidCursor | Panic

  datatype Result<+T> = Ok(value: T) | Err(fault: Fault)

  datatype PageState = PageState(offset: nat, limit: nat)

  datatype Page<+T> = Page(items: seq<T>, nextCursor: Option<string>)

  datatype Codec = Codec(encode: nat -> string, decode: string -> Option<nat>)

  ghost predicate ReadsBack(codec: Codec) {
    forall offset: nat :: offset < U64 ==> codec.decode(codec.encode(offset)) == Some(offset)
  }

  // ---------------------------------------------------------------------
  // The server's cursor
  // ---------------------------------------------------------------------

  function BytesOf(s: string): (b: seq<Byte>)
    requires forall c :: c in s ==> IsDigit(c)
    ensures |b| == |s| && forall i :: 0 <= i < |s| ==> b[i] == s[i] as int
  {
    if s == "" then [] else assert IsDigit(s[0]); [s[0] as int] + BytesOf(s[1..])
  }

  /** Bytes read as text. No byte above 127 can be part of a number either way. */
  function TextOf(b: seq<Byte>): string {
    seq(|b|, i requires 0 <= i < |b| => b[i] as char)
  }

  function EncodeCursor(offset: nat): string {
    Encode(BytesOf(Format(offset)))
  }

  function DecodeCursor(cursor: string): Option<nat> {
    match Decode(cursor)
    case None => None
    case Some(bytes) => ParseU64(TextOf(bytes))
  }

  const CURSOR: Codec := Codec(EncodeCursor, DecodeCursor)

  /** Every cursor the server can issue decodes to the offset it was issued for. */
  lemma CursorRoundTrip(offset: nat)
    requires offset < U64
    ensures DecodeCursor(EncodeCursor(offset)) == Some(offset)
  {
    DecodesExactly(EncodeCursor(offset), BytesOf(Format(offset)));
    assert TextOf(BytesOf(Format(offset))) == Format(offset);
    ParseOfFormat(offset);
  }

  /** A cursor is the offset in decimal digits, and nothing else, in base64url. */
  lemma CursorIsTheOffset(offset: nat)
    ensures Decode(EncodeCursor(offset)).Some?
    ensures var bytes := Decode(EncodeCursor(offset)).value;
            && bytes != [] && (forall i :: 0 <= i < |bytes| ==> 48 <= bytes[i] <= 57)
            && Decimal(bytes) == offset
  {
    var digits := Format(offset);
    DecodesExactly(EncodeCursor(offset), BytesOf(digits));
    forall i | 0 <= i < |digits| ensures 48 <= BytesOf(digits)[i] <= 57 {
      assert digits[i] in digits;
    }
    DecimalOf(digits);
    ValueOfFormat(offset);
  }

  /** The number that ASCII digits denote. */
  function Decimal(bytes: seq<Byte>): int {
    if bytes == [] then 0 else 10 * Decimal(bytes[..|bytes| - 1]) + bytes[|bytes| - 1] - 48
  }

  lemma {:induction false} DecimalOf(digits: string)
    requires forall c :: c in digits ==> IsDigit(c)
    ensures Decimal(BytesOf(digits)) == Value(digits)
  {
    if digits != "" {
      var n := |digits| - 1;
      DecimalOf(digits[..n]);
      assert BytesOf(digits)[..n] == BytesOf(digits[..n]);
      assert digits[n] in digits;
    }
  }

  lemma CursorReadsBack()
    ensures ReadsBack(CURSOR)
  {
    forall offset: nat | offset < U64
      ensures CURSOR.decode(CURSOR.encode(offset)) == Some(offset)
    {
      CursorRoundTrip(offset);
    }
  }

  // ---------------------------------------------------------------------
  // Pages
  // ---------------------------------------------------------------------

  function At(offset: nat, pageSize: nat): PageState {
    PageState(offset, if pageSize == 0 then 1 else pageSize)
  }

  function FromCursor(codec: Codec, cursor: Option<string>, pageSize: nat): Result<PageState> {
    match cursor
    case None => Ok(At(0, pageSize))
    case Some(text) =>
      match codec.decode(text)
      case None => Err(InvalidCursor)
      case Some(offset) => Ok(At(offset, pageSize))
  }

  function NextCursor(codec: Codec, state: PageState, total: nat, returned: nat): Option<string> {
    if state.offset + returned < total then Some(codec.encode(state.offset + returned)) else None
  }

  function Paginate<T>(codec: Codec, items: seq<T>, state: PageState): Result<Page<T>> {
    var total := |items|;
    if state.offset > 0 && state.offset >= total then Err(InvalidCursor)
    else if state.offset >= total then Ok(Page([], None))
    else if state.offset + state.limit >= U64 then Err(Panic)
    else
      var end := if state.offset + state.limit < total then state.offset + state.limit else total;
      var page := items[state.offset..end];
      Ok(Page(page, NextCursor(codec, state, total, |page|)))
  }

  /** One list request: what every list handler does with its cursor. */
  function ListPage<T>(codec: Codec, items: seq<T>, cursor: Option<string>, pageSize: nat)
    : Result<Page<T>>
  {
    match FromCursor(codec, cursor, pageSize)
    case Err(fault) => Err(fault)
    case Ok(state) => Paginate(codec, items, state)
  }

  /** How much of the list is still ahead of a cursor. */
  function Remaining<T>(codec: Codec, items: seq<T>, cursor: Option<string>): nat {
    match FromCursor(codec, cursor, 0)
    case Err(_) => 0
    case Ok(state) => if state.offset <= |items| then |items| - state.offset else 0
  }

  /**
   A page in full: a prefix of what the cursor has ahead of it, nonempty unless
   the list is, with a next cursor exactly when something is left - one that
   decodes and points at what is left.
   */
  lemma PageIsPrefix<T>(codec: Codec, items: seq<T>, cursor: Option<string>, pageSize: nat)
    requires ReadsBack(codec) && |items| <= MAX_ITEMS
    requires ListPage(codec, items, cursor, pageSize).Ok?
    ensures var page := ListPage(codec, items, cursor, pageSize).value;
            && FromCursor(codec, cursor, pageSize).Ok?
            && var at := FromCursor(codec, cursor, pageSize).value.offset;
            && at <= |items|
            && page.items <= items[at..]
            && |page.items| <= (if pageSize == 0 then 1 else pageSize)
            && (at < |items| ==> page.items != [])
            && (page.nextCursor.None? <==> at + |page.items| == |items|)
            && (page.nextCursor.Some? ==>
                  && codec.decode(page.nextCursor.value) == Some(at + |page.items|)
                  && Remaining(codec, items, page.nextCursor) < Remaining(codec, items, cursor))
  {
    var page := ListPage(codec, items, cursor, pageSize).value;
    var state := FromCursor(codec, cursor, pageSize).value;
    assert |page.items| <= |items|;
  }

  /** A request is refused exactly for a cursor that is not one, or points past the end. */
  lemma RefusedExactly<T>(codec: Codec, items: seq<T>, cursor: Option<string>, pageSize: nat)
    ensures ListPage(codec, items, cursor, pageSize) == Err(InvalidCursor) <==>
            && cursor.Some?
            && (codec.decode(cursor.value).None? ||
                (codec.decode(cursor.value).value > 0 &&
                 codec.decode(cursor.value).value >= |items|))
  {
  }

  // ---------------------------------------------------------------------
  // The walk
  // ---------------------------------------------------------------------

  /** A client following `nextCursor` until there is none, keeping every page. */
  ghost function Walk<T>(codec: Codec, items: seq<T>, cursor: Option<string>, pageSize: nat)
    : Result<seq<T>>
    requires ReadsBack(codec) && |items| <= MAX_ITEMS
    decreases Remaining(codec, items, cursor)
  {
    match ListPage(codec, items, cursor, pageSize)
    case Err(fault) => Err(fault)
    case Ok(page) =>
      PageIsPrefix(codec, items, cursor, pageSize);
      if page.nextCursor.None? then Ok(page.items)
      else
        match Walk(codec, items, page.nextCursor, pageSize)
        case Err(fault) => Err(fault)
        case Ok(rest) => Ok(page.items + rest)
  }

  /** Where `offset + limit` fits a `usize`, as it does on the client's path. */
  predicate Fits(items: nat, at: nat, pageSize: nat) {
    at == 0 || (at < items && (at >= pageSize || at + pageSize < U64))
  }

  /** A page that is not the last is full; the last one is the rest of the list. */
  lemma PageIsFullOrLast<T>(codec: Codec, items: seq<T>, cursor: Option<string>, pageSize: nat)
    requires |items| <= MAX_ITEMS && pageSize < U64
    requires FromCursor(codec, cursor, pageSize).Ok?
    requires Fits(|items|, FromCursor(codec, cursor, pageSize).value.offset, pageSize)
    ensures var at := FromCursor(codec, cursor, pageSize).value.offset;
            var limit := if pageSize == 0 then 1 else pageSize;
            && ListPage(codec, items, cursor, pageSize).Ok?
            && var page := ListPage(codec, items, cursor, pageSize).value;
            && (page.nextCursor.None? ==> page.items == items[at..])
            && (page.nextCursor.Some? ==>
                  at + limit < |items| && page.items == items[at..at + limit])
  {
  }

  lemma {:induction false} WalkFromOffset<T>(
    codec: Codec, items: seq<T>, cursor: Option<string>, at: nat, pageSize: nat)
    requires ReadsBack(codec) && |items| <= MAX_ITEMS && pageSize < U64
    requires FromCursor(codec, cursor, pageSize) == Ok(At(at, pageSize))
    requires Fits(|items|, at, pageSize)
    ensures Walk(codec, items, cursor, pageSize) == Ok(items[at..])
    decreases Remaining(codec, items, cursor)
  {
    PageIsFullOrLast(codec, items, cursor, pageSize);
    PageIsPrefix(codec, items, cursor, pageSize);
    var page := ListPage(codec, items, cursor, pageSize).value;
    if page.nextCursor.Some? {
      var limit := if pageSize == 0 then 1 else pageSize;
      WalkFromOffset(codec, items, page.nextCursor, at + limit, pageSize);
      assert items[at..at + limit] + items[at + limit..] == items[at..];
    }
  }

  /** The walk ends, and it is the list: every list, every page size, zero included. */
  lemma WalkIsTheList<T>(items: seq<T>, pageSize: nat)
    requires |items| <= MAX_ITEMS && pageSize < U64
    ensures ReadsBack(CURSOR)
    ensures Walk(CURSOR, items, None, pageSize) == Ok(items)
  {
    CursorReadsBack();
    WalkFromOffset(CURSOR, items, None, 0, pageSize);
    assert items[0..] == items;
  }
}
