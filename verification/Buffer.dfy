// The byte buffer of base/Buffer.cpp: one array, a reader index and a writer index.
// Its readable contents are a byte queue; every operation is specified on that queue
// and, where callers keep positions, on the indices.

module Buffers {
  import opened Arithmetic
  import opened Collections
  import opened Text

  const CHEAP_PREPEND: nat := 8
  const EXTRA: nat := 65536

  /** The outcome of readv(2): an errno, or the octets that arrived. */
  datatype ReadResult = Failed(errno: int) | Received(data: string)

  // ------------------------------------------------------------- network byte order

  predicate Octets(s: string) {
    forall i :: 0 <= i < |s| ==> s[i] < 256 as char
  }

  /** Big-endian digits in base 256. */
  function BigEndian(x: nat, width: nat): (s: string)
    requires x < Power256(width)
    ensures |s| == width && Octets(s)
  {
    if width == 0 then "" else BigEndian(x / 256, width - 1) + [(x % 256) as char]
  }

  /** The octets come in network order: the most significant one first. */
  lemma {:induction false} BigEndianOrder(x: nat, width: nat, i: nat)
    requires x < Power256(width) && i < width
    ensures BigEndian(x, width)[i] as nat == (x / Power256(width - 1 - i)) % 256
  {
    if i < width - 1 {
      BigEndianOrder(x / 256, width - 1, i);
      DivideTwice(x, Power256(width - 2 - i));
    }
  }

  lemma DivideTwice(x: nat, p: nat)
    requires p > 0
    ensures (x / 256) / p == x / (256 * p)
  {
    var q := x / (256 * p);
    var r := x % (256 * p);
    assert x == 256 * p * q + r;
    assert x / 256 == p * q + r / 256;
    assert r / 256 < p;
    Quotient(x / 256, p, q, r / 256);
  }

  function Value(s: string): (x: nat)
    requires Octets(s)
    ensures x < Power256(|s|)
  {
    if |s| == 0 then 0 else 256 * Value(s[..|s| - 1]) + s[|s| - 1] as nat
  }

  lemma {:induction false} ValueOfBigEndian(x: nat, width: nat)
    requires x < Power256(width)
    ensures Value(BigEndian(x, width)) == x
  {
    if width > 0 {
      ValueOfBigEndian(x / 256, width - 1);
      var s := BigEndian(x, width);
      assert s[..width - 1] == BigEndian(x / 256, width - 1);
    }
  }

  /** The signed integers of a width, in two's complement. */
  ghost predicate Fits(x: int, width: nat)
    requires width > 0
  {
    -(Power256(width) / 2) <= x < Power256(width) / 2
  }

  /** The octets of a signed integer in network order. */
  function Encode(x: int, width: nat): (s: string)
    requires width > 0 && Fits(x, width)
    ensures |s| == width && Octets(s)
  {
    BigEndian(if x < 0 then x + Power256(width) else x, width)
  }

  function Decode(s: string): (x: int)
    requires |s| > 0 && Octets(s)
    ensures Fits(x, |s|)
  {
    var v := Value(s);
    if v < Power256(|s|) / 2 then v else v - Power256(|s|)
  }

  /** A signed integer is sent in two's complement, the most significant octet first. */
  lemma EncodeOrder(x: int, width: nat, i: nat)
    requires width > 0 && Fits(x, width) && i < width
    ensures
      var complement: nat := if x < 0 then x + Power256(width) else x;
      Encode(x, width)[i] as nat == (complement / Power256(width - 1 - i)) % 256
  {
    BigEndianOrder(if x < 0 then x + Power256(width) else x, width, i);
    hide BigEndian;
  }

  lemma DecodeOfEncode(x: int, width: nat)
    requires width > 0 && Fits(x, width)
    ensures Decode(Encode(x, width)) == x
  {
    ValueOfBigEndian(if x < 0 then x + Power256(width) else x, width);
  }

  // ------------------------------------------------------------- the buffer

  class Buffer {
    var buffer: array<char>
    var readerIndex: nat
    var writerIndex: nat

    ghost predicate Valid()
      reads this, buffer
    {
      readerIndex <= writerIndex <= buffer.Length && CHEAP_PREPEND <= buffer.Length
    }

    /** The readable bytes. */
    ghost function Contents(): string
      reads this, buffer
      requires Valid()
    {
      buffer[readerIndex..writerIndex]
    }

    constructor (initialSize: nat)
      ensures Valid() && fresh(buffer) && Contents() == ""
      ensures readerIndex == CHEAP_PREPEND && buffer.Length == CHEAP_PREPEND + initialSize
    {
      buffer := new char[CHEAP_PREPEND + initialSize](i => '\0');
      readerIndex, writerIndex := CHEAP_PREPEND, CHEAP_PREPEND;
    }

    function ReadableBytes(): nat
      reads this, buffer
      requires Valid()
    {
      writerIndex - readerIndex
    }

    function WritableBytes(): nat
      reads this, buffer
      requires Valid()
    {
      buffer.Length - writerIndex
    }

    function PrependableBytes(): nat
      reads this
    {
      readerIndex
    }

    method Swap(rhs: Buffer)
      requires Valid() && rhs.Valid()
      modifies this, rhs
      ensures Valid() && rhs.Valid()
      ensures Contents() == old(rhs.Contents()) && rhs.Contents() == old(Contents())
      ensures buffer == old(rhs.buffer) && rhs.buffer == old(buffer)
      ensures readerIndex == old(rhs.readerIndex) && rhs.readerIndex == old(readerIndex)
    {
      buffer, rhs.buffer := rhs.buffer, buffer;
      readerIndex, rhs.readerIndex := rhs.readerIndex, readerIndex;
      writerIndex, rhs.writerIndex := rhs.writerIndex, writerIndex;
    }

    // ----------------------------------------------------------- searching

    /** findChars: the position of the first occurrence, as an index into the storage.  Nothing
        occurs at once, but not in an empty buffer. */
    method FindChars(chars: string) returns (pos: Option<nat>)
      requires Valid()
      ensures chars == "" ==> pos == if Contents() == "" then None else Some(readerIndex)
      ensures chars != "" ==> (pos.None? <==> Search(Contents(), chars, 0) == |Contents()|)
      ensures chars != "" && pos.Some? ==> pos.value == readerIndex + Search(Contents(), chars, 0)
    {
      if chars == "" {
        return if readerIndex == writerIndex then None else Some(readerIndex);
      }
      var r := Search(buffer[readerIndex..writerIndex], chars, 0);
      pos := if readerIndex + r == writerIndex then None else Some(readerIndex + r);
    }

    method FindCRLF() returns (pos: Option<nat>)
      requires Valid()
      ensures pos.None? <==> Search(Contents(), CRLF, 0) == |Contents()|
      ensures pos.Some? ==> pos.value == readerIndex + Search(Contents(), CRLF, 0)
    {
      pos := FindChars(CRLF);
    }

    // ----------------------------------------------------------- taking from the front

    method RetrieveAll()
      requires Valid()
      modifies this`readerIndex, this`writerIndex
      ensures Valid() && Contents() == ""
      ensures readerIndex == writerIndex == CHEAP_PREPEND
    {
      readerIndex, writerIndex := CHEAP_PREPEND, CHEAP_PREPEND;
    }

    /** The indices fall back to the start only when nothing readable is left. */
    method Retrieve(len: nat)
      requires Valid() && len <= ReadableBytes()
      modifies this`readerIndex, this`writerIndex
      ensures Valid() && Contents() == old(Contents()[len..])
      ensures len < |old(Contents())| ==> readerIndex == old(readerIndex) + len && writerIndex == old(writerIndex)
      ensures len == |old(Contents())| ==> readerIndex == writerIndex == CHEAP_PREPEND
    {
      if len < ReadableBytes() {
        readerIndex := readerIndex + len;
      } else {
        RetrieveAll();
      }
    }

    method RetrieveUntil(end: nat)
      requires Valid() && readerIndex <= end <= writerIndex
      modifies this`readerIndex, this`writerIndex
      ensures Valid() && Contents() == old(buffer[end..writerIndex])
    {
      Retrieve(end - readerIndex);
    }

    method RetrieveAsString(len: nat) returns (result: string)
      requires Valid() && len <= ReadableBytes()
      modifies this`readerIndex, this`writerIndex
      ensures Valid() && result == old(Contents()[..len]) && Contents() == old(Contents()[len..])
      ensures len < |old(Contents())| ==> readerIndex == old(readerIndex) + len && writerIndex == old(writerIndex)
      ensures len == |old(Contents())| ==> readerIndex == writerIndex == CHEAP_PREPEND
    {
      result := buffer[readerIndex..readerIndex + len];
      Retrieve(len);
    }

    method RetrieveAllAsString() returns (result: string)
      requires Valid()
      modifies this`readerIndex, this`writerIndex
      ensures Valid() && result == old(Contents()) && Contents() == "" && readerIndex == CHEAP_PREPEND
    {
      result := RetrieveAsString(ReadableBytes());
    }

    // ----------------------------------------------------------- adding at the back

    /** std::copy of the bytes from..to of the storage to an earlier place, byte by byte. */
    method MoveDown(from: nat, to: nat, target: nat)
      requires target <= from <= to <= buffer.Length
      modifies buffer
      ensures buffer[target..target + (to - from)] == old(buffer[from..to])
    {
      var n := 0;
      while from + n < to
        invariant 0 <= n <= to - from
        invariant forall i :: target <= i < target + n ==> buffer[i] == old(buffer[from + i - target])
        invariant forall i :: target + n <= i < buffer.Length ==> buffer[i] == old(buffer[i])
      {
        buffer[target + n] := buffer[from + n];
        n := n + 1;
      }
    }

    /** Either the storage grows, or the readable bytes move to the front: then there was
        something before them to move into. */
    method MakeSpace(len: nat)
      requires Valid() && WritableBytes() < len
      modifies this, buffer
      ensures Valid() && WritableBytes() >= len && Contents() == old(Contents())
      ensures buffer == old(buffer) || fresh(buffer)
      ensures readerIndex == old(readerIndex) || readerIndex == CHEAP_PREPEND < old(readerIndex)
    {
      if WritableBytes() + PrependableBytes() < len + CHEAP_PREPEND {
        var larger := new char[writerIndex + len](i requires 0 <= i reads this, buffer =>
          if i < writerIndex && i < buffer.Length then buffer[i] else '\0');
        buffer := larger;
      } else {
        assert CHEAP_PREPEND < readerIndex;
        var readable := ReadableBytes();
        MoveDown(readerIndex, writerIndex, CHEAP_PREPEND);
        readerIndex := CHEAP_PREPEND;
        writerIndex := readerIndex + readable;
      }
    }

    method EnsureWritableBytes(len: nat)
      requires Valid()
      modifies this, buffer
      ensures Valid() && WritableBytes() >= len && Contents() == old(Contents())
      ensures buffer == old(buffer) || fresh(buffer)
      ensures readerIndex == old(readerIndex) || readerIndex == CHEAP_PREPEND < old(readerIndex)
    {
      if WritableBytes() < len {
        MakeSpace(len);
      }
    }

    method Append(data: string)
      requires Valid()
      modifies this, buffer
      ensures Valid() && Contents() == old(Contents()) + data
      ensures buffer == old(buffer) || fresh(buffer)
      ensures readerIndex == old(readerIndex) || readerIndex == CHEAP_PREPEND < old(readerIndex)
    {
      EnsureWritableBytes(|data|);
      Put(data);
    }

    /** Bytes written into the writable space, by std::copy or by the kernel. */
    method Put(data: string)
      requires Valid() && |data| <= WritableBytes()
      modifies this`writerIndex, buffer
      ensures Valid() && Contents() == old(Contents()) + data
      ensures WritableBytes() == old(WritableBytes()) - |data|
    {
      forall i | 0 <= i < |data| {
        buffer[writerIndex + i] := data[i];
      }
      writerIndex := writerIndex + |data|;
    }

    /** readFd: however the kernel splits the data over the two areas, the data is appended. */
    method ReadFd(input: ReadResult) returns (n: int, savedErrno: Option<int>)
      requires Valid()
      requires input.Received? ==> |input.data| <= WritableBytes() + EXTRA
      modifies this, buffer
      ensures Valid() && (buffer == old(buffer) || fresh(buffer))
      ensures readerIndex == old(readerIndex) || (input.Received? && readerIndex == CHEAP_PREPEND < old(readerIndex))
      ensures input.Received? ==> n == |input.data| && savedErrno.None? && Contents() == old(Contents()) + input.data
      ensures input.Failed? ==> n == -1 && savedErrno == Some(input.errno) && Contents() == old(Contents())
    {
      match input
      case Failed(errno) =>
        n, savedErrno := -1, Some(errno);
      case Received(data) =>
        n, savedErrno := |data|, None;
        var writable := WritableBytes();
        if |data| <= writable {
          Put(data);
        } else {
          Put(data[..writable]);
          Append(data[writable..]);
          assert data == data[..writable] + data[writable..];
        }
    }

    // ----------------------------------------------------------- adding at the front

    method Prepend(data: string)
      requires Valid() && |data| <= PrependableBytes()
      modifies this`readerIndex, buffer
      ensures Valid() && Contents() == data + old(Contents())
      ensures readerIndex == old(readerIndex) - |data|
    {
      readerIndex := readerIndex - |data|;
      forall i | 0 <= i < |data| {
        buffer[readerIndex + i] := data[i];
      }
    }

    // ----------------------------------------------------------- integers

    method AppendInt(x: int, width: nat)
      requires Valid() && width > 0 && Fits(x, width)
      modifies this, buffer
      ensures Valid() && Contents() == old(Contents()) + Encode(x, width)
      ensures buffer == old(buffer) || fresh(buffer)
    {
      Append(Encode(x, width));
    }

    method PrependInt(x: int, width: nat)
      requires Valid() && width > 0 && Fits(x, width) && width <= PrependableBytes()
      modifies this`readerIndex, buffer
      ensures Valid() && Contents() == Encode(x, width) + old(Contents())
    {
      Prepend(Encode(x, width));
    }

    method PeekInt(width: nat) returns (x: int)
      requires Valid() && 0 < width <= ReadableBytes() && Octets(Contents()[..width])
      ensures x == Decode(Contents()[..width])
    {
      assert Contents()[..width] == buffer[readerIndex..readerIndex + width];
      x := Decode(buffer[readerIndex..readerIndex + width]);
    }

    method ReadInt(width: nat) returns (x: int)
      requires Valid() && 0 < width <= ReadableBytes() && Octets(Contents()[..width])
      modifies this`readerIndex, this`writerIndex
      ensures Valid() && x == Decode(old(Contents()[..width])) && Contents() == old(Contents()[width..])
      ensures readerIndex == if width < |old(Contents())| then old(readerIndex) + width else CHEAP_PREPEND
    {
      x := PeekInt(width);
      Retrieve(width);
    }
  }

  /** An integer put in front is what the next read returns, and the read undoes the prepend. */
  method PrependThenRead(b: Buffer, x: int, width: nat) returns (y: int)
    requires b.Valid() && width > 0 && Fits(x, width) && width <= b.PrependableBytes()
    modifies b, b.buffer
    ensures y == x && b.Valid() && b.Contents() == old(b.Contents())
  {
    b.PrependInt(x, width);
    assert b.Contents()[..width] == Encode(x, width);
    y := b.ReadInt(width);
    DecodeOfEncode(x, width);
  }

  /** An integer appended is read back after everything that was there before it. */
  method AppendThenRead(b: Buffer, x: int, width: nat) returns (before: string, y: int)
    requires b.Valid() && width > 0 && Fits(x, width)
    modifies b, b.buffer
    ensures before == old(b.Contents()) && y == x && b.Valid() && b.Contents() == ""
  {
    var n := b.ReadableBytes();
    b.AppendInt(x, width);
    assert b.Contents()[..n] == old(b.Contents()) && b.Contents()[n..] == Encode(x, width);
    before := b.RetrieveAsString(n);
    assert b.Contents()[..width] == Encode(x, width);
    y := b.ReadInt(width);
    DecodeOfEncode(x, width);
  }

  // ------------------------------------------------------------- any sequence of uses

  /** A use of a buffer, with a second one beside it to swap with.  Bytes beyond what readv(2)
      has room for do not arrive; a prepend needs room in front, and taking needs the bytes to
      be there: without that the source must not be called, and nothing is done here. */
  datatype Use =
    | Store(data: string)
    | StoreInt(x: int, width: nat)
    | Receive(input: ReadResult)
    | Front(data: string)
    | FrontInt(x: int, width: nat)
    | Take(n: nat)
    | TakeInt(width: nat)
    | TakeAll
    | Exchange

  /** What a use did to the queue of bytes. */
  datatype Effect = In(data: string) | Ahead(data: string) | Out(data: string) | Swapped | Nothing

  /** The bytes of the buffer and of the second one, and those taken so far. */
  datatype Queues = Queues(content: string, other: string, taken: string)

  /** The queue that the buffer stands for. */
  ghost function Affected(q: Queues, e: Effect): Queues {
    match e
    case In(data) => q.(content := q.content + data)
    case Ahead(data) => q.(content := data + q.content)
    case Out(data) => if data <= q.content then q.(content := q.content[|data|..], taken := q.taken + data) else q
    case Swapped => q.(content := q.other, other := q.content)
    case Nothing => q
  }

  ghost function AllAffected(q: Queues, effects: seq<Effect>): Queues {
    if effects == [] then q else Affected(AllAffected(q, effects[..|effects| - 1]), effects[|effects| - 1])
  }

  /** What a use may do when the queue holds this and so many bytes have room in front: all that
      was asked, except that a read may bring less than the peer has sent, and then it brings
      at least as much as the stack buffer of readFd holds. */
  ghost predicate Does(use: Use, content: string, room: nat, e: Effect) {
    match use
    case Store(data) => e == In(data)
    case StoreInt(x, width) => e == if width > 0 && Fits(x, width) then In(Encode(x, width)) else Nothing
    case Receive(Failed(_)) => e == Nothing
    case Receive(Received(data)) => e.In? && e.data <= data && (|e.data| < |data| ==> EXTRA <= |e.data|)
    case Front(data) => e == if |data| <= room then Ahead(data) else Nothing
    case FrontInt(x, width) => e == if 0 < width <= room && Fits(x, width) then Ahead(Encode(x, width)) else Nothing
    case Take(n) => e == if n <= |content| then Out(content[..n]) else Nothing
    case TakeInt(width) =>
      e == if 0 < width <= |content| && Octets(content[..width]) then Out(content[..width]) else Nothing
    case TakeAll => e == Out(content)
    case Exchange => e == Swapped
  }

  /** How the room in front changes: taking makes room, taking all restores what a new buffer
      has, a prepend uses it up, and an addition leaves it or, when the bytes are moved to make
      space, reduces it to what a new buffer has. */
  ghost predicate RoomAfter(room: nat, content: string, e: Effect, next: nat) {
    match e
    case In(_) => next == room || next == CHEAP_PREPEND < room
    case Ahead(data) => next == room - |data|
    case Out(data) => next == if data == content then CHEAP_PREPEND else room + |data|
    case Swapped => true
    case Nothing => next == room
  }

  /** The room in front of both buffers. */
  datatype Rooms = Rooms(room: nat, other: nat)

  ghost predicate RoomsAfter(r: Rooms, content: string, e: Effect, next: Rooms) {
    if e.Swapped? then next == Rooms(r.other, r.room)
    else RoomAfter(r.room, content, e, next.room) && next.other == r.other
  }

  ghost predicate Separate(b: Buffer, other: Buffer)
    reads b, other, b.buffer, other.buffer
  {
    b != other && b.buffer != other.buffer && b.Valid() && other.Valid()
  }

  /** The integer at the front; it is what the bytes taken encode. */
  method TakeIntOnce(b: Buffer, width: nat) returns (ghost e: Effect, x: Option<int>)
    requires b.Valid()
    modifies b`readerIndex, b`writerIndex
    ensures b.Valid() && Does(TakeInt(width), old(b.Contents()), old(b.readerIndex), e)
    ensures b.Contents() == Affected(Queues(old(b.Contents()), "", ""), e).content
    ensures RoomAfter(old(b.readerIndex), old(b.Contents()), e, b.readerIndex)
    ensures if e.Out? then Octets(e.data) && e.data != "" && x == Some(Decode(e.data)) else x == None
  {
    e, x := Nothing, None;
    if 0 < width <= b.ReadableBytes() {
      var front := b.buffer[b.readerIndex..b.readerIndex + width];
      assert front == b.Contents()[..width];
      if Octets(front) {
        e := Out(front);
        var y := b.ReadInt(width);
        x := Some(y);
      }
    }
  }

  method StoreOnce(b: Buffer, data: string) returns (ghost e: Effect)
    requires b.Valid()
    modifies b, b.buffer
    ensures b.Valid() && e == In(data) && b.Contents() == old(b.Contents()) + data
    ensures RoomAfter(old(b.readerIndex), old(b.Contents()), e, b.readerIndex)
    ensures b.buffer == old(b.buffer) || fresh(b.buffer)
  {
    b.Append(data);
    e := In(data);
  }

  /** What the peer has sent arrives as far as there is room. */
  method ReceiveOnce(b: Buffer, input: ReadResult) returns (ghost e: Effect)
    requires b.Valid()
    modifies b, b.buffer
    ensures b.Valid() && Does(Use.Receive(input), old(b.Contents()), old(b.readerIndex), e)
    ensures RoomAfter(old(b.readerIndex), old(b.Contents()), e, b.readerIndex)
    ensures b.Contents() == Affected(Queues(old(b.Contents()), "", ""), e).content
    ensures b.buffer == old(b.buffer) || fresh(b.buffer)
  {
    match input
    case Failed(_) =>
      var _, _ := b.ReadFd(input);
      e := Nothing;
    case Received(data) =>
      var room := b.WritableBytes() + EXTRA;
      var part := if |data| <= room then data else data[..room];
      var _, _ := b.ReadFd(Received(part));
      e := In(part);
  }

  method FrontOnce(b: Buffer, data: string) returns (ghost e: Effect)
    requires b.Valid()
    modifies b`readerIndex, b.buffer
    ensures b.Valid() && e == if |data| <= old(b.readerIndex) then Ahead(data) else Nothing
    ensures RoomAfter(old(b.readerIndex), old(b.Contents()), e, b.readerIndex)
    ensures b.Contents() == if e.Ahead? then data + old(b.Contents()) else old(b.Contents())
  {
    e := Nothing;
    if |data| <= b.PrependableBytes() {
      b.Prepend(data);
      e := Ahead(data);
    }
  }

  method TakeOnce(b: Buffer, n: nat) returns (ghost e: Effect)
    requires b.Valid()
    modifies b`readerIndex, b`writerIndex
    ensures b.Valid() && Does(Use.Take(n), old(b.Contents()), old(b.readerIndex), e)
    ensures RoomAfter(old(b.readerIndex), old(b.Contents()), e, b.readerIndex)
    ensures b.Contents() == Affected(Queues(old(b.Contents()), "", ""), e).content
  {
    e := Nothing;
    if n <= b.ReadableBytes() {
      e := Out(b.Contents()[..n]);
      var _ := b.RetrieveAsString(n);
    }
  }

  method UseOne(b: Buffer, use: Use) returns (ghost e: Effect)
    requires b.Valid() && !use.Exchange?
    modifies b, b.buffer
    ensures b.Valid() && Does(use, old(b.Contents()), old(b.readerIndex), e) && e != Swapped
    ensures RoomAfter(old(b.readerIndex), old(b.Contents()), e, b.readerIndex)
    ensures b.Contents() == Affected(Queues(old(b.Contents()), "", ""), e).content
    ensures b.buffer == old(b.buffer) || fresh(b.buffer)
  {
    hide Encode, Fits, Octets;
    e := Nothing;
    match use
    case Store(data) => e := StoreOnce(b, data);
    case StoreInt(x, width) =>
      if width > 0 && -(Power256(width) / 2) <= x < Power256(width) / 2 {
        FitsIs(x, width);
        e := StoreOnce(b, Encode(x, width));
      } else if width > 0 {
        FitsIs(x, width);
      }
    case Receive(input) => e := ReceiveOnce(b, input);
    case Front(data) => e := FrontOnce(b, data);
    case FrontInt(x, width) =>
      if width > 0 && -(Power256(width) / 2) <= x < Power256(width) / 2 {
        FitsIs(x, width);
        e := FrontOnce(b, Encode(x, width));
      } else if width > 0 {
        FitsIs(x, width);
      }
    case Take(n) => e := TakeOnce(b, n);
    case TakeInt(width) =>
      var x;
      e, x := TakeIntOnce(b, width);
    case TakeAll =>
      e := Out(b.Contents());
      var _ := b.RetrieveAllAsString();
  }

  lemma FitsIs(x: int, width: nat)
    requires width > 0
    ensures Fits(x, width) <==> -(Power256(width) / 2) <= x < Power256(width) / 2
  {
  }

  /** One use; the effect tells what happened to the bytes of both buffers. */
  method UseOnce(b: Buffer, other: Buffer, use: Use) returns (ghost e: Effect)
    requires Separate(b, other)
    modifies b, other, b.buffer, other.buffer
    ensures Separate(b, other) && Does(use, old(b.Contents()), old(b.readerIndex), e)
    ensures
      var q := Affected(Queues(old(b.Contents()), old(other.Contents()), ""), e);
      b.Contents() == q.content && other.Contents() == q.other
    ensures RoomsAfter(Rooms(old(b.readerIndex), old(other.readerIndex)), old(b.Contents()), e,
                       Rooms(b.readerIndex, other.readerIndex))
    ensures b.buffer == old(b.buffer) || b.buffer == old(other.buffer) || fresh(b.buffer)
    ensures other.buffer == old(b.buffer) || other.buffer == old(other.buffer) || fresh(other.buffer)
  {
    if use == Exchange {
      b.Swap(other);
      e := Swapped;
    } else {
      e := UseOne(b, use);
    }
  }

  /** What uses did: their effects, and what the first buffer held and the room in front of both
      before each of them and at the end. */
  ghost predicate Account(start: Queues, uses: seq<Use>, effects: seq<Effect>, rooms: seq<Rooms>) {
    && |effects| == |uses| && |rooms| == |uses| + 1
    && forall i :: 0 <= i < |uses| ==> Accounted(start, uses, effects, rooms, i)
  }

  ghost predicate Accounted(start: Queues, uses: seq<Use>, effects: seq<Effect>, rooms: seq<Rooms>, i: nat)
    requires i < |uses| == |effects| && |rooms| == |uses| + 1
  {
    var content := AllAffected(start, effects[..i]).content;
    Does(uses[i], content, rooms[i].room, effects[i]) && RoomsAfter(rooms[i], content, effects[i], rooms[i + 1])
  }

  /** Over any sequence of uses the buffer is the queue of its bytes: the effects are what was
      asked for, and they alone, in order, say what each buffer holds and what was taken,
      however often storage was compacted, grew or changed hands in between. */
  method UseMany(b: Buffer, other: Buffer, uses: seq<Use>) returns (ghost effects: seq<Effect>, ghost rooms: seq<Rooms>)
    requires Separate(b, other)
    modifies b, other, b.buffer, other.buffer
    ensures
      var start := Queues(old(b.Contents()), old(other.Contents()), "");
      && Separate(b, other) && Account(start, uses, effects, rooms)
      && rooms[0] == Rooms(old(b.readerIndex), old(other.readerIndex))
      && b.Contents() == AllAffected(start, effects).content && other.Contents() == AllAffected(start, effects).other
  {
    hide Does, Affected, AllAffected, RoomsAfter, Account;
    ghost var start := Queues(b.Contents(), other.Contents(), "");
    effects, rooms := [], [Rooms(b.readerIndex, other.readerIndex)];
    EmptyAccount(start, rooms);
    for n := 0 to |uses|
      invariant Separate(b, other) && Account(start, uses[..n], effects, rooms)
      invariant b.buffer == old(b.buffer) || b.buffer == old(other.buffer) || fresh(b.buffer)
      invariant other.buffer == old(b.buffer) || other.buffer == old(other.buffer) || fresh(other.buffer)
      invariant |rooms| == n + 1 && rooms[0] == Rooms(old(b.readerIndex), old(other.readerIndex))
      invariant rooms[n] == Rooms(b.readerIndex, other.readerIndex)
      invariant b.Contents() == AllAffected(start, effects).content
      invariant other.Contents() == AllAffected(start, effects).other
    {
      ghost var e := UseOnce(b, other, uses[n]);
      OneMoreEffect(start, effects, e);
      LongerAccount(start, uses, n, effects, rooms, e, Rooms(b.readerIndex, other.readerIndex));
      effects, rooms := effects + [e], rooms + [Rooms(b.readerIndex, other.readerIndex)];
    }
    assert uses[..|uses|] == uses;
  }

  lemma EmptyAccount(start: Queues, rooms: seq<Rooms>)
    requires |rooms| == 1
    ensures Account(start, [], [], rooms) && AllAffected(start, []) == start
  {
  }

  lemma LongerAccount(start: Queues, uses: seq<Use>, n: nat, effects: seq<Effect>, rooms: seq<Rooms>, e: Effect,
                      next: Rooms)
    requires n < |uses| && Account(start, uses[..n], effects, rooms)
    requires
      var content := AllAffected(start, effects).content;
      |rooms| == n + 1 && Does(uses[n], content, rooms[n].room, e) && RoomsAfter(rooms[n], content, e, next)
    ensures Account(start, uses[..n + 1], effects + [e], rooms + [next])
  {
    var uses', effects', rooms' := uses[..n + 1], effects + [e], rooms + [next];
    forall i | 0 <= i < |uses'|
      ensures Accounted(start, uses', effects', rooms', i)
    {
      hide Does, RoomsAfter, AllAffected;
      assert effects'[..i] == effects[..i];
      if i < n {
        assert Accounted(start, uses[..n], effects, rooms, i);
      } else {
        assert effects[..n] == effects;
      }
    }
  }

  lemma OneMoreEffect(start: Queues, effects: seq<Effect>, e: Effect)
    ensures AllAffected(start, effects + [e]) == Affected(AllAffected(start, effects), e)
    ensures
      var q := AllAffected(start, effects);
      var d := Affected(Queues(q.content, q.other, ""), e);
      Affected(q, e).content == d.content && Affected(q, e).other == d.other
  {
    assert (effects + [e])[..|effects|] == effects;
  }

  // ------------------------------------------------------------- what the queue promises

  /** The bytes that came in at the back. */
  ghost function Incoming(effects: seq<Effect>): string {
    if effects == [] then ""
    else
      var e := effects[|effects| - 1];
      Incoming(effects[..|effects| - 1]) + if e.In? then e.data else ""
  }

  /** While nothing is put in front and nothing is swapped, the bytes taken and those left are
      the bytes that were there and those that came, in order: none is lost, doubled or
      moved. */
  lemma {:induction false} BytesAreConserved(start: Queues, effects: seq<Effect>)
    requires forall i :: 0 <= i < |effects| ==> !effects[i].Ahead? && !effects[i].Swapped?
    ensures
      var q := AllAffected(start, effects);
      q.taken + q.content == start.taken + start.content + Incoming(effects)
  {
    if effects != [] {
      var n := |effects| - 1;
      BytesAreConserved(start, effects[..n]);
      var q := AllAffected(start, effects[..n]);
      match effects[n]
      case In(data) =>
        assert q.taken + (q.content + data) == (q.taken + q.content) + data;
      case Out(data) =>
        if data <= q.content {
          assert q.content == data + q.content[|data|..];
          assert (q.taken + data) + q.content[|data|..] == q.taken + (data + q.content[|data|..]);
        }
      case Nothing =>
      case Ahead(data) =>
      case Swapped =>
    }
  }
}
