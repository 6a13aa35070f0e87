// Shared vocabulary of the MOD decoder: byte-sized integers, the three
// error kinds a parse can end in, and the result wrappers that replace the
// exceptions thrown by the TypeScript code.
module Common {

  /** One element of the input buffer (a Uint8Array entry). */
  type Byte = b: int | 0 <= b < 256

  /** The value of a big-endian two-byte field. */
  type U16 = w: int | 0 <= w < 0x1_0000

  /** Why a read or a parse failed. */
  datatype Error =
    | OutOfRange         // a read or seek past either end of the buffer
    | InvalidArgument    // a negative byte count
    | UnsupportedFormat  // a magic id other than "M.K."

  /** A value, or the error that ended the computation. */
  datatype Result<+T> = Ok(value: T) | Err(error: Error)

  /** Success or failure of an operation that returns nothing. */
  datatype Outcome = Pass | Fail(error: Error)

  /** String.fromCharCode on a byte: the character whose code point is the byte. */
  function CharOf(b: Byte): char
  {
    b as char
  }

  /** A slice of a slice is a slice of the original sequence. */
  lemma SliceOfSlice<T>(s: seq<T>, a: nat, b: nat, c: nat, d: nat)
    requires a <= b <= |s| && c <= d <= b - a
    ensures s[a..b][c..d] == s[a + c..a + d]
  {
    forall i | 0 <= i < d - c
      ensures s[a..b][c..d][i] == s[a + c..a + d][i]
    {
      assert s[a..b][c..d][i] == s[a..b][c + i];
    }
  }

  /** A slice inside the first part of a concatenation is a slice of that part. */
  lemma SliceOfAppendLeft<T>(p: seq<T>, q: seq<T>, a: nat, b: nat)
    requires a <= b <= |p|
    ensures (p + q)[a..b] == p[a..b]
  {
  }

  /** The second part of a concatenation, sliced back out. */
  lemma SliceOfAppendRight<T>(p: seq<T>, q: seq<T>)
    ensures (p + q)[|p|..|p| + |q|] == q
    ensures (p + q)[|p|..] == q
  {
  }

  function Max(a: int, b: int): int
  {
    if a < b then b else a
  }
}
