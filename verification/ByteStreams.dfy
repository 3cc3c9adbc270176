/** A reader, the one-byte iterator over it, and the peekable buffer over that
    (iterator/reader.go, iterator/consumable.go). A byte is a char here. */
module ByteStreams {
  import opened Common

  /** How a reader's stream ends. */
  datatype End = Eof | UnexpectedEof | Failing(code: nat)

  datatype Error =
    | ReadError(code: nat)
    | NotEnoughItems
    | NegativeCount
    | NilIterator
    | UnknownToken

  /** An io.Reader: some bytes, then its end. */
  class Reader {
    var rest: string
    const end: End

    constructor (bytes: string, end: End)
      ensures rest == bytes && this.end == end
    {
      rest, this.end := bytes, end;
    }

    /** io.ReadFull into a buffer of one byte; None is the end. */
    method ReadFull() returns (b: Option<char>)
      modifies this
      ensures old(rest) == "" ==> b == None && rest == ""
      ensures old(rest) != "" ==> b == Some(old(rest)[0]) && rest == old(rest)[1..]
    {
      b := None;
      if |rest| != 0 {
        b, rest := Some(rest[0]), rest[1..];
      }
    }
  }

  class ReaderIterator {
    const reader: Reader
    var buffer: char
    var hasBuffer: bool
    var done: bool
    var err: Option<Error>

    ghost predicate Valid()
      reads this, reader
    {
      && (hasBuffer ==> !done)
      && (done ==> reader.rest == "")
      && err == (if done && reader.end.Failing? then Some(ReadError(reader.end.code)) else None)
    }

    /** The bytes not yet handed out. */
    ghost function Unread(): string
      reads this, reader
    {
      if hasBuffer then [buffer] + reader.rest else reader.rest
    }

    constructor (reader: Reader)
      ensures this.reader == reader && Valid() && Unread() == reader.rest && !done
    {
      this.reader, buffer, hasBuffer, done, err := reader, '\0', false, false, None;
    }

    method HasNext() returns (b: bool)
      requires Valid()
      modifies this, reader
      ensures Valid() && Unread() == old(Unread())
      ensures b == (Unread() != "")
      ensures b ==> hasBuffer
      ensures !b ==> done
    {
      if hasBuffer {
        return true;
      }
      if done {
        return false;
      }
      b := ReadNext();
    }

    method Next() returns (b: char)
      requires Valid()
      modifies this, reader
      ensures Valid()
      ensures old(Unread()) != "" ==> old(Unread()) == [b] + Unread() && !done
      ensures old(Unread()) == "" ==> b == '\0' && Unread() == ""
    {
      var some := HasNext();
      if !some {
        return '\0';
      }
      hasBuffer := false;
      return buffer;
    }

    method ReadNext() returns (b: bool)
      requires Valid() && !hasBuffer && !done
      modifies this, reader
      ensures Valid() && Unread() == old(Unread())
      ensures b == (Unread() != "") && b == hasBuffer && b != done
    {
      var byte := reader.ReadFull();
      if byte.Some? {
        buffer, hasBuffer := byte.value, true;
        return true;
      }
      done := true;
      if reader.end.Eof? || reader.end.UnexpectedEof? {
        return false;
      }
      err := Some(ReadError(reader.end.code));
      return false;
    }
  }

  /** What asking for `num` items gives, with `available` items left and nothing sticky in the way but `sticky`. */
  function FillError(num: int, sticky: Option<Error>, isNil: bool, available: nat, end: End): Option<Error> {
    if num < 0 then Some(NegativeCount)
    else if num == 0 then None
    else if sticky.Some? then sticky
    else if isNil then Some(NilIterator)
    else if num <= available then None
    else if end.Failing? then Some(ReadError(end.code))
    else Some(NotEnoughItems)
  }

  function Max(a: int, b: int): int {
    if a < b then b else a
  }

  /** PeekableConsumableImpl. The buffer is a Go slice: `count` items of `data` from `start` on. */
  class Peekable {
    const source: ReaderIterator?
    var data: array<char>
    var start: nat
    var count: nat
    var err: Option<Error>

    ghost function Footprint(): set<object?>
      reads this
    {
      if source == null then {this, data} else {this, data, source, source.reader}
    }

    ghost predicate Valid()
      reads this, Footprint()
    {
      && start + count <= data.Length
      && (source == null ==> count == 0 && err.None?)
      && (source != null ==> source.Valid() && source.err == err)
    }

    ghost function End(): End {
      if source == null then Eof else source.reader.end
    }

    /** The items not yet consumed: the buffer, then what the source still holds. */
    ghost function Unconsumed(): string
      requires Valid()
      reads this, Footprint()
    {
      data[start..start + count] + if source == null then "" else source.Unread()
    }

    constructor (source: ReaderIterator?)
      requires source != null ==> source.Valid() && !source.done
      ensures this.source == source && Valid() && count == 0 && fresh(data)
      ensures err.None? && Unconsumed() == if source == null then "" else source.Unread()
    {
      this.source := source;
      data := new char[0];
      start, count, err := 0, 0, None;
    }

    /** append(i.buffer, item): in place while the backing array has room, into a new one otherwise. */
    method Append(item: char)
      requires start + count <= data.Length
      modifies this`data, this`start, this`count, data
      ensures start + count <= data.Length && count == old(count) + 1
      ensures data == old(data) || fresh(data)
      ensures data[start..start + count] == old(data[start..start + count]) + [item]
    {
      ghost var was := data[start..start + count];
      if start + count == data.Length {
        var larger := new char[2 * count + 1];
        for j := 0 to count
          invariant data == old(data) && start == old(start) && count == old(count)
          invariant data[start..start + count] == was
          invariant larger[..j] == was[..j]
        {
          larger[j] := data[start + j];
        }
        data, start := larger, 0;
      }
      data[start + count] := item;
      count := count + 1;
      assert data[start..start + count] == data[start..start + count - 1] + [item];
    }

    method FillBuffer(num: int) returns (e: Option<Error>)
      requires Valid()
      modifies Footprint()
      ensures Valid() && fresh(Footprint() - old(Footprint()))
      ensures Unconsumed() == old(Unconsumed())
      ensures e == FillError(num, old(err), source == null, |Unconsumed()|, End())
      ensures err == if e.Some? && e.value.ReadError? then e else old(err)
      ensures e.None? ==> 0 <= num <= count
      ensures old(count) <= count <= Max(old(count), num)
    {
      if num < 0 {
        return Some(NegativeCount);
      }
      if num == 0 {
        return None;
      }
      if err.Some? {
        return err;
      }
      if source == null {
        return Some(NilIterator);
      }
      while count < num
        invariant Valid() && fresh(Footprint() - old(Footprint()))
        invariant err.None? && Unconsumed() == old(Unconsumed())
        invariant old(count) <= count <= Max(old(count), num)
        decreases num - count
      {
        var more := Fetch();
        if !more {
          return if err.Some? then err else Some(NotEnoughItems);
        }
      }
      return None;
    }

    /** One pass of fillBuffer's loop: move an item from the source into the buffer, or note how the source ended.
        Over a reader Next never leaves an error behind, so the check after it finds none. */
    method Fetch() returns (more: bool)
      requires Valid() && source != null && err.None?
      modifies Footprint()
      ensures Valid() && fresh(Footprint() - old(Footprint()))
      ensures Unconsumed() == old(Unconsumed())
      ensures more ==> count == old(count) + 1 && err.None?
      ensures !more ==> count == old(count) == |Unconsumed()|
      ensures !more ==> err == if End().Failing? then Some(ReadError(End().code)) else None
    {
      more := source.HasNext();
      if !more {
        err := source.err;
        return;
      }
      Pull();
    }

    /** append(i.buffer, i.iterator.Next()). */
    method Pull()
      requires Valid() && source != null && err.None? && source.Unread() != ""
      modifies Footprint()
      ensures Valid() && fresh(Footprint() - old(Footprint()))
      ensures Unconsumed() == old(Unconsumed()) && count == old(count) + 1 && err.None?
    {
      ghost var held := data[start..start + count];
      var item := source.Next();
      ItemMoves(held, item, source.Unread());
      Append(item);
    }

    lemma ItemMoves(held: string, item: char, unread: string)
      ensures held + ([item] + unread) == (held + [item]) + unread
    {
    }

    /** A copy of the next items, or null with the reason; the stream is as it was. */
    method PeekN(num: int) returns (values: array?<char>, e: Option<Error>)
      requires Valid()
      modifies Footprint()
      ensures Valid() && fresh(Footprint() - old(Footprint()))
      ensures Unconsumed() == old(Unconsumed())
      ensures e == FillError(num, old(err), source == null, |Unconsumed()|, End())
      ensures err == if e.Some? && e.value.ReadError? then e else old(err)
      ensures if e.Some? then values == null
              else values != null && fresh(values) && values !in Footprint() && values[..] == Unconsumed()[..num]
      ensures count <= Max(old(count), num)
    {
      hide FillError, Valid, Unconsumed;
      e := FillBuffer(num);
      if e.Some? {
        return null, e;
      }
      values := CopyOut(num);
    }

    method CopyOut(num: nat) returns (values: array<char>)
      requires Valid() && num <= count
      ensures fresh(values) && num <= |Unconsumed()| && values[..] == Unconsumed()[..num]
    {
      ghost var held := data[start..start + count];
      HeldComesFirst(held, if source == null then "" else source.Unread(), num);
      values := new char[num];
      for j := 0 to num
        invariant forall i | 0 <= i < j :: values[i] == held[i]
      {
        values[j] := data[start + j];
      }
      assert values[..] == held[..num];
    }

    lemma HeldComesFirst(held: string, unread: string, num: nat)
      requires num <= |held|
      ensures (held + unread)[..num] == held[..num] && (held + unread)[num..] == held[num..] + unread
    {
    }

    /** Takes the first items off the buffer, which are the first of the stream. */
    method Drop(num: nat)
      requires Valid() && num <= count
      modifies this`start, this`count, data
      ensures Valid() && data == old(data) && count == old(count) - num && num <= |old(Unconsumed())|
      ensures Unconsumed() == old(Unconsumed())[num..]
    {
      HeldComesFirst(data[start..start + count], if source == null then "" else source.Unread(), num);
      ZeroAndReslice(num);
    }

    method ZeroAndReslice(num: nat)
      requires start + count <= data.Length && num <= count
      modifies this`start, this`count, data
      ensures start == old(start) + num && count == old(count) - num
      ensures data[start..start + count] == old(data[start..start + count])[num..]
      ensures forall k | old(start) <= k < start :: data[k] == '\0'
    {
      for idx := 0 to num
        invariant start == old(start) && count == old(count)
        invariant forall k | start + num <= k < start + count :: data[k] == old(data[k])
        invariant forall k | start <= k < start + idx :: data[k] == '\0'
      {
        data[start + idx] := '\0';
      }
      start, count := start + num, count - num;
    }

    /** Drops exactly num items, zeroing their places in the backing array; on failure nothing is dropped. */
    method ConsumeN(num: int) returns (e: Option<Error>)
      requires Valid()
      modifies Footprint()
      ensures Valid() && fresh(Footprint() - old(Footprint()))
      ensures e == FillError(num, old(err), source == null, |old(Unconsumed())|, End())
      ensures err == if e.Some? && e.value.ReadError? then e else old(err)
      ensures Unconsumed() == if e.None? then old(Unconsumed())[num..] else old(Unconsumed())
      ensures e.None? ==> count == Max(old(count), num) - num
      ensures count <= Max(old(count), num)
    {
      hide FillError, Valid, Unconsumed;
      e := FillBuffer(num);
      if e.Some? {
        return;
      }
      Drop(num);
    }

    /** Peek and Peek2: the next one or two items. */
    method Peek() returns (item: char, e: Option<Error>)
      requires Valid()
      modifies Footprint()
      ensures Valid() && fresh(Footprint() - old(Footprint()))
      ensures Unconsumed() == old(Unconsumed())
      ensures e == FillError(1, old(err), source == null, |Unconsumed()|, End())
      ensures err == if e.Some? && e.value.ReadError? then e else old(err)
      ensures item == if e.None? then Unconsumed()[0] else '\0'
      ensures count <= Max(old(count), 1)
    {
      var values;
      values, e := PeekN(1);
      item := if e.Some? then '\0' else values[..][0];
    }

    method Peek2() returns (first: char, second: char, e: Option<Error>)
      requires Valid()
      modifies Footprint()
      ensures Valid() && fresh(Footprint() - old(Footprint()))
      ensures Unconsumed() == old(Unconsumed())
      ensures e == FillError(2, old(err), source == null, |Unconsumed()|, End())
      ensures err == if e.Some? && e.value.ReadError? then e else old(err)
      ensures e.None? ==> first == Unconsumed()[0] && second == Unconsumed()[1]
      ensures count <= Max(old(count), 2)
    {
      var values;
      values, e := PeekN(2);
      first, second := '\0', '\0';
      if e.None? {
        first, second := values[..][0], values[..][1];
      }
    }
  }

  /** A slice given out by PeekN is the caller's own: consuming zeroes the buffer, never the slice. */
  method PeekThenConsume(items: Peekable, peeked: nat, consumed: nat) returns (values: array?<char>, e: Option<Error>)
    requires items.Valid()
    modifies items.Footprint()
    ensures items.Valid()
    ensures e.None? ==> peeked <= |old(items.Unconsumed())| && consumed <= |old(items.Unconsumed())|
    ensures e.None? ==> values != null && values[..] == old(items.Unconsumed())[..peeked]
    ensures e.None? ==> items.Unconsumed() == old(items.Unconsumed())[consumed..]
  {
    values, e := items.PeekN(peeked);
    if e.None? {
      e := items.ConsumeN(consumed);
    }
  }
}
