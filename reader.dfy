// The byte reader of source/engine/io/reader.ts: a cursor over an immutable
// byte buffer with bounds-checked reads. Every failing call leaves the cursor
// where it was; every successful read advances it by exactly the bytes read.
module IoReader {
  import opened Common

  /** The value of a big-endian 16-bit field whose bytes are hi, lo. */
  function Be16(hi: Byte, lo: Byte): (w: U16)
    ensures w / 256 == hi && w % 256 == lo
  {
    hi * 256 + lo
  }

  /**
   * The text of a fixed-width string field: the characters of the bytes
   * before the first NUL, or of all the bytes when there is none.
   */
  function CString(b: seq<Byte>): (s: string)
    ensures |s| <= |b|
  {
    if b == [] || b[0] == 0 then "" else [CharOf(b[0])] + CString(b[1..])
  }

  /**
   * The text of a string field holds no NUL, is the characters of the bytes
   * it covers, and stops at a NUL byte or at the end of the field.
   */
  lemma {:induction false} CStringShape(b: seq<Byte>)
    ensures forall i :: 0 <= i < |CString(b)| ==> b[i] != 0 && CString(b)[i] == CharOf(b[i]) && CString(b)[i] != 0 as char
    ensures |CString(b)| < |b| ==> b[|CString(b)|] == 0
  {
    if b != [] && b[0] != 0 {
      CStringShape(b[1..]);
    }
  }

  /**
   * CString is fixed by where the first NUL is: with no NUL among the first
   * n bytes and a NUL (or the end) at n, the text is those n bytes.
   */
  lemma CStringUpTo(b: seq<Byte>, n: nat)
    requires n <= |b| && (n == |b| || b[n] == 0)
    requires forall i :: 0 <= i < n ==> b[i] != 0
    ensures CString(b) == seq(n, i requires 0 <= i < n => CharOf(b[i]))
  {
    CStringShape(b);
  }

  /** One step of CString taken from offset i of b. */
  lemma CStringAt(b: seq<Byte>, i: nat)
    requires i <= |b|
    ensures i == |b| ==> CString(b[i..]) == ""
    ensures i < |b| && b[i] == 0 ==> CString(b[i..]) == ""
    ensures i < |b| && b[i] != 0 ==> CString(b[i..]) == [CharOf(b[i])] + CString(b[i + 1..])
  {
    if i < |b| {
      assert b[i..][0] == b[i];
      assert b[i..][1..] == b[i + 1..];
    }
  }

  class Reader {
    /** The buffer being read; it never changes. */
    const data: seq<Byte>
    /** The cursor: the offset of the next byte to read. */
    var position: int

    ghost predicate Valid()
      reads this
    {
      0 <= position <= |data|
    }

    constructor (buffer: seq<Byte>)
      ensures Valid()
      ensures data == buffer && position == 0
    {
      data := buffer;
      position := 0;
    }

    /** The cursor position. */
    function Tell(): (p: int)
      reads this
      requires Valid()
      ensures p == position && 0 <= p <= Size()
    {
      position
    }

    /** The length of the buffer, fixed for the reader's lifetime since data is const. */
    function Size(): (n: nat)
      ensures n == |data|
    {
      |data|
    }

    /** The number of bytes not yet read. */
    function Remaining(): (n: int)
      reads this
      requires Valid()
      ensures n == Size() - Tell() && 0 <= n <= Size()
    {
      |data| - position
    }

    /** Moves the cursor to p; any p from 0 to the size, inclusive, is allowed. */
    method Seek(p: int) returns (r: Outcome)
      requires Valid()
      modifies this
      ensures Valid()
      ensures r == (if 0 <= p <= |data| then Pass else Fail(OutOfRange))
      ensures position == (if r.Pass? then p else old(position))
    {
      if p < 0 {
        return Fail(OutOfRange);
      }
      if p > |data| {
        return Fail(OutOfRange);
      }
      position := p;
      return Pass;
    }

    /** Reads one byte. */
    method U8() returns (r: Result<Byte>)
      requires Valid()
      modifies this
      ensures Valid()
      ensures old(position) + 1 <= |data| ==> r == Ok(data[old(position)]) && position == old(position) + 1
      ensures old(position) + 1 > |data| ==> r == Err(OutOfRange) && position == old(position)
    {
      if position + 1 > |data| {
        return Err(OutOfRange);
      }
      var v := data[position];
      position := position + 1;
      return Ok(v);
    }

    /** Reads a big-endian 16-bit value. */
    method U16BE() returns (r: Result<U16>)
      requires Valid()
      modifies this
      ensures Valid()
      ensures old(position) + 2 <= |data| ==>
        r == Ok(Be16(data[old(position)], data[old(position) + 1])) && position == old(position) + 2
      ensures old(position) + 2 > |data| ==> r == Err(OutOfRange) && position == old(position)
    {
      if position + 2 > |data| {
        return Err(OutOfRange);
      }
      var hi := data[position + 0];
      var lo := data[position + 1];
      position := position + 2;
      return Ok(Be16(hi, lo));
    }

    /** Reads count raw bytes. */
    method Bytes(count: int) returns (r: Result<seq<Byte>>)
      requires Valid()
      modifies this
      ensures Valid()
      ensures r == (if count < 0 then Err(InvalidArgument)
                    else if old(position) + count > |data| then Err(OutOfRange)
                    else Ok(data[old(position)..old(position) + count]))
      ensures position == (if r.Ok? then old(position) + count else old(position))
    {
      if count < 0 {
        return Err(InvalidArgument);
      }
      if position + count > |data| {
        return Err(OutOfRange);
      }
      var slice := data[position..position + count];
      position := position + count;
      return Ok(slice);
    }

    /**
     * Reads a fixed-width string field: consumes all count bytes and keeps
     * the characters before the first NUL.
     */
    method Str(count: int) returns (r: Result<string>)
      requires Valid()
      modifies this
      ensures Valid()
      ensures r == (if count < 0 then Err(InvalidArgument)
                    else if old(position) + count > |data| then Err(OutOfRange)
                    else Ok(CString(data[old(position)..old(position) + count])))
      ensures position == (if r.Ok? then old(position) + count else old(position))
    {
      ghost var start := position;
      var b := Bytes(count);
      if b.Err? {
        return Err(b.error);
      }
      var bytes := b.value;
      assert bytes == data[start..start + count];
      var s := "";
      var i := 0;
      while i < |bytes|
        invariant 0 <= i <= |bytes|
        invariant CString(bytes) == s + CString(bytes[i..])
        invariant position == start + count
      {
        var c := bytes[i];
        CStringAt(bytes, i);
        if c == 0 {
          break;
        }
        s := s + [CharOf(c)];
        i := i + 1;
      }
      CStringAt(bytes, i);
      assert s + "" == s;
      return Ok(s);
    }
  }
}
